/** High-level IR functions: blocks of instructions over values and source variables, and how they run. */
module Hir {
  import opened Wrappers
  import opened Graph

  type Var = nat   // a source variable (its symbol)
  type Val = nat   // an IR value (its id)

  /** An operand is a value, or a source variable still to be replaced by SSA renaming. */
  datatype Operand = Value(id: Val) | VarRef(sym: Var)

  datatype Op =
    | ConstInt(imm: int) | Param(index: nat)
    | Add | Sub | Mul | Div | Mod | Neg | LogicalNot
    | Equal | NotEqual | Less | LessEqual | Greater | GreaterEqual

  datatype Incoming = Incoming(pred: nat, value: Operand)

  datatype Instr =
    | Compute(op: Op, dst: Val, args: seq<Operand>, defSym: Option<Var>)
    | Print(arg: Operand)
    | Bind(source: Operand, target: Var)
    | Phi(dst: Val, phis: seq<Incoming>, defSym: Option<Var>, phiVar: Option<Var>)

  datatype Term =
    | Jump(target: nat)
    | Branch(cond: Operand, trueTarget: nat, falseTarget: nat)
    | Return(value: Option<Operand>)
    | Halt

  /** `defs` lists the variables the block's code defines. */
  datatype Block = Block(code: seq<Instr>, term: Term, preds: seq<nat>, succs: seq<nat>, defs: seq<Var>)

  datatype Func = Func(entry: nat, blocks: seq<Block>, lastValueId: nat)
  {
    function Graph(): Cfg {
      Cfg(entry, seq(|blocks|, b requires 0 <= b < |blocks| => blocks[b].preds),
                 seq(|blocks|, b requires 0 <= b < |blocks| => blocks[b].succs))
    }

    function Code(b: nat): seq<Instr>
      requires b < |blocks|
    {
      blocks[b].code
    }
  }

  // ----- running a function -----

  /** `temps` holds the values computed so far and `vars` the source variables. */
  datatype Frame = Frame(temps: map<Val, int>, vars: map<Var, int>, out: seq<int>)

  datatype Outcome = Returned(value: Option<int>) | Halted | Trapped

  datatype State = At(block: nat, frame: Frame) | Stopped(outcome: Outcome, out: seq<int>)

  datatype BodyResult = Done(frame: Frame) | Trap(out: seq<int>)

  function Get(m: map<nat, int>, k: nat): int { if k in m then m[k] else 0 }

  function OperandValue(fr: Frame, o: Operand): int {
    match o
    case Value(id) => Get(fr.temps, id)
    case VarRef(v) => Get(fr.vars, v)
  }

  function OperandValues(fr: Frame, args: seq<Operand>): (r: seq<int>)
    ensures |r| == |args|
  {
    seq(|args|, i requires 0 <= i < |args| => OperandValue(fr, args[i]))
  }

  /** Division that rounds toward zero, as the machine's. */
  function Quotient(a: int, b: int): int
    requires b != 0
  {
    if (a >= 0) == (b > 0) then Abs(a) / Abs(b) else -(Abs(a) / Abs(b))
  }

  function Abs(a: int): nat { if a < 0 then -a else a }

  function Truth(b: bool): int { if b then 1 else 0 }

  /** None when the operation traps. */
  function Apply(op: Op, a: seq<int>, params: seq<int>): Option<int> {
    match op
    case ConstInt(n) => Some(n)
    case Param(i) => Some(if i < |params| then params[i] else 0)
    case Neg => if |a| == 1 then Some(-a[0]) else None
    case LogicalNot => if |a| == 1 then Some(Truth(a[0] == 0)) else None
    case _ => if |a| == 2 then ApplyBinary(op, a[0], a[1]) else None
  }

  function ApplyBinary(op: Op, x: int, y: int): Option<int> {
    match op
    case Add => Some(x + y)
    case Sub => Some(x - y)
    case Mul => Some(x * y)
    case Div => if y == 0 then None else Some(Quotient(x, y))
    case Mod => if y == 0 then None else Some(x - y * Quotient(x, y))
    case Equal => Some(Truth(x == y))
    case NotEqual => Some(Truth(x != y))
    case Less => Some(Truth(x < y))
    case LessEqual => Some(Truth(x <= y))
    case Greater => Some(Truth(x > y))
    case GreaterEqual => Some(Truth(x >= y))
    case _ => None
  }

  function SetVar(vars: map<Var, int>, sym: Option<Var>, x: int): map<Var, int> {
    match sym
    case None => vars
    case Some(v) => vars[v := x]
  }

  /** A producing instruction sets its value and the variable it defines, if any. */
  function Write(fr: Frame, dst: Val, sym: Option<Var>, x: int): Frame {
    fr.(temps := fr.temps[dst := x], vars := SetVar(fr.vars, sym, x))
  }

  /** One instruction where it stands; phis took effect on the edge into the block. */
  function Exec(i: Instr, fr: Frame, params: seq<int>): BodyResult {
    match i
    case Compute(op, dst, args, sym) =>
      (match Apply(op, OperandValues(fr, args), params)
       case None => Trap(fr.out)
       case Some(x) => Done(Write(fr, dst, sym, x)))
    case Print(arg) => Done(fr.(out := fr.out + [OperandValue(fr, arg)]))
    case Bind(source, v) => Done(fr.(vars := fr.vars[v := OperandValue(fr, source)]))
    case Phi(_, _, _, _) => Done(fr)
  }

  /** The first n instructions of a block. */
  function RunCode(code: seq<Instr>, n: nat, fr: Frame, params: seq<int>): BodyResult
    requires n <= |code|
  {
    if n == 0 then Done(fr)
    else match RunCode(code, n - 1, fr, params)
      case Trap(out) => Trap(out)
      case Done(fr') => Exec(code[n - 1], fr', params)
  }

  /** The operand a phi takes when control arrives from block `from`. */
  function Chosen(phis: seq<Incoming>, from: nat): Operand {
    if phis == [] then Value(0)
    else if phis[0].pred == from then phis[0].value
    else Chosen(phis[1..], from)
  }

  /** The first n instructions' phis, all reading the frame as it was at the end of the block left. */
  function TakeEdge(code: seq<Instr>, n: nat, from: nat, before: Frame): Frame
    requires n <= |code|
  {
    if n == 0 then before
    else
      var fr := TakeEdge(code, n - 1, from, before);
      match code[n - 1]
      case Phi(dst, phis, sym, _) => Write(fr, dst, sym, OperandValue(before, Chosen(phis, from)))
      case _ => fr
  }

  function Enter(f: Func, from: nat, to: nat, fr: Frame): State {
    if to < |f.blocks| then At(to, TakeEdge(f.blocks[to].code, |f.blocks[to].code|, from, fr))
    else Stopped(Trapped, fr.out)
  }

  function Finish(f: Func, b: nat, t: Term, fr: Frame): State {
    match t
    case Jump(x) => Enter(f, b, x, fr)
    case Branch(c, x, y) => Enter(f, b, if OperandValue(fr, c) != 0 then x else y, fr)
    case Return(None) => Stopped(Returned(None), fr.out)
    case Return(Some(o)) => Stopped(Returned(Some(OperandValue(fr, o))), fr.out)
    case Halt => Stopped(Halted, fr.out)
  }

  /** One block: its code, then its terminator. */
  function Step(f: Func, params: seq<int>, s: State): State {
    match s
    case Stopped(_, _) => s
    case At(b, fr) =>
      if b >= |f.blocks| then Stopped(Trapped, fr.out)
      else match RunCode(f.blocks[b].code, |f.blocks[b].code|, fr, params)
        case Trap(out) => Stopped(Trapped, out)
        case Done(fr') => Finish(f, b, f.blocks[b].term, fr')
  }

  const START: Frame := Frame(map[], map[], [])

  /** The state after n blocks. */
  function Run(f: Func, params: seq<int>, n: nat): State {
    if n == 0 then At(f.entry, START) else Step(f, params, Run(f, params, n - 1))
  }

  // ----- well-formed functions -----

  function Targets(t: Term): seq<nat> {
    match t
    case Jump(x) => [x]
    case Branch(_, x, y) => [x, y]
    case Return(_) => []
    case Halt => []
  }

  /** The variable an instruction gives a new value, if any. */
  function Defined(i: Instr): Option<Var> {
    match i
    case Compute(_, _, _, s) => s
    case Print(_) => None
    case Bind(_, v) => Some(v)
    case Phi(_, _, s, _) => s
  }

  function Dst(i: Instr): Option<Val> {
    match i
    case Compute(_, d, _, _) => Some(d)
    case Phi(d, _, _, _) => Some(d)
    case _ => None
  }

  ghost predicate Defines(code: seq<Instr>, v: Var) {
    exists i :: 0 <= i < |code| && Defined(code[i]) == Some(v)
  }

  /** The operands an instruction reads where it stands (a phi reads on the edges). */
  function Operands(i: Instr): seq<Operand> {
    match i
    case Compute(_, _, args, _) => args
    case Print(a) => [a]
    case Bind(a, _) => [a]
    case Phi(_, _, _, _) => []
  }

  function TermOperands(t: Term): seq<Operand> {
    match t
    case Branch(c, _, _) => [c]
    case Return(Some(o)) => [o]
    case _ => []
  }

  /** Every block but the entry has a predecessor. */
  ghost predicate Entered(f: Func) {
    forall b: nat :: b < |f.blocks| && b != f.entry ==> f.blocks[b].preds != []
  }

  ghost predicate PhisFirst(code: seq<Instr>) {
    forall i, j :: 0 <= i < j < |code| && code[j].Phi? ==> code[i].Phi?
  }

  ghost predicate Produces(f: Func, b: nat, i: nat, d: Val) {
    b < |f.blocks| && i < |f.blocks[b].code| && Dst(f.blocks[b].code[i]) == Some(d)
  }

  /** Each value is produced by one instruction. */
  ghost predicate SingleProducers(f: Func) {
    forall d, b, i, c, j :: Produces(f, b, i, d) && Produces(f, c, j, d) ==> b == c && i == j
  }

  ghost predicate Distinct(s: seq<nat>) {
    forall i, j :: 0 <= i < j < |s| ==> s[i] != s[j]
  }

  /** A phi has exactly one entry per predecessor, in the order of the predecessor list. */
  ghost predicate PhiMatches(i: Instr, preds: seq<nat>) {
    i.Phi? ==> |i.phis| == |preds| && forall k :: 0 <= k < |preds| ==> i.phis[k].pred == preds[k]
  }

  ghost predicate ValuesBelow(i: Instr, bound: nat) {
    && (Dst(i).Some? ==> Dst(i).value < bound)
    && (forall o :: o in Operands(i) && o.Value? ==> o.id < bound)
    && (i.Phi? ==> forall k :: 0 <= k < |i.phis| && i.phis[k].value.Value? ==> i.phis[k].value.id < bound)
  }

  /** The shape every function keeps through SSA construction. */
  ghost predicate Shaped(f: Func) {
    && WellFormed(f.Graph())
    && SingleProducers(f)
    && forall b :: 0 <= b < |f.blocks| ==> BlockShaped(f, b)
  }

  ghost predicate BlockShaped(f: Func, b: nat)
    requires b < |f.blocks|
  {
    var blk := f.blocks[b];
    && blk.succs == Targets(blk.term)
    && Distinct(blk.preds) && Distinct(blk.succs)
    && PhisFirst(blk.code)
    && (forall i :: 0 <= i < |blk.code| ==> InstrShaped(f, b, i))
    && (forall o :: o in TermOperands(blk.term) && o.Value? ==> o.id < f.lastValueId)
  }

  ghost predicate InstrShaped(f: Func, b: nat, i: nat)
    requires b < |f.blocks| && i < |f.blocks[b].code|
  {
    PhiMatches(f.blocks[b].code[i], f.blocks[b].preds) && ValuesBelow(f.blocks[b].code[i], f.lastValueId)
  }
}
