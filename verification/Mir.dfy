/** Machine IR: no phis, no source variables, only values in registers. */
module Mir {
  import opened Wrappers
  import Hir

  type Val = Hir.Val

  /** Machine operations: those of the high-level IR but for logical negation, which has no machine form. */
  type Op = o: Hir.Op | o != Hir.LogicalNot witness Hir.Add

  datatype Instr =
    | Compute(op: Op, dst: Val, args: seq<Val>)
    | Print(arg: Val)
    | Move(dst: Val, src: Val)

  /** Terminators keep their operands as they are. */
  datatype Block = Block(code: seq<Instr>, term: Hir.Term, preds: seq<nat>, succs: seq<nat>)

  datatype Func = Func(entry: nat, blocks: seq<Block>, lastValueId: nat)

  type Regs = map<Val, int>

  datatype BodyResult = Done(regs: Regs, out: seq<int>) | Trap(out: seq<int>)

  datatype State = At(block: nat, regs: Regs, out: seq<int>) | Stopped(outcome: Hir.Outcome, out: seq<int>)

  function Values(regs: Regs, args: seq<Val>): (r: seq<int>)
    ensures |r| == |args|
  {
    seq(|args|, i requires 0 <= i < |args| => Hir.Get(regs, args[i]))
  }

  function Exec(i: Instr, regs: Regs, out: seq<int>, params: seq<int>): BodyResult {
    match i
    case Compute(op, dst, args) =>
      (match Hir.Apply(op, Values(regs, args), params)
       case None => Trap(out)
       case Some(x) => Done(regs[dst := x], out))
    case Print(a) => Done(regs, out + [Hir.Get(regs, a)])
    case Move(dst, src) => Done(regs[dst := Hir.Get(regs, src)], out)
  }

  function RunCode(code: seq<Instr>, n: nat, regs: Regs, out: seq<int>, params: seq<int>): BodyResult
    requires n <= |code|
  {
    if n == 0 then Done(regs, out)
    else match RunCode(code, n - 1, regs, out, params)
      case Trap(o) => Trap(o)
      case Done(r, o) => Exec(code[n - 1], r, o, params)
  }

  function OperandIn(regs: Regs, o: Hir.Operand): int {
    match o
    case Value(v) => Hir.Get(regs, v)
    case VarRef(_) => 0
  }

  function Finish(t: Hir.Term, regs: Regs, out: seq<int>): State {
    match t
    case Jump(x) => At(x, regs, out)
    case Branch(c, x, y) => At(if OperandIn(regs, c) != 0 then x else y, regs, out)
    case Return(None) => Stopped(Hir.Returned(None), out)
    case Return(Some(o)) => Stopped(Hir.Returned(Some(OperandIn(regs, o))), out)
    case Halt => Stopped(Hir.Halted, out)
  }

  function Step(f: Func, params: seq<int>, s: State): State {
    match s
    case Stopped(_, _) => s
    case At(b, regs, out) =>
      if b >= |f.blocks| then Stopped(Hir.Trapped, out)
      else match RunCode(f.blocks[b].code, |f.blocks[b].code|, regs, out, params)
        case Trap(o) => Stopped(Hir.Trapped, o)
        case Done(r, o) => Finish(f.blocks[b].term, r, o)
  }

  function Run(f: Func, params: seq<int>, n: nat): State {
    if n == 0 then At(f.entry, map[], []) else Step(f, params, Run(f, params, n - 1))
  }

  // ----- the frame of a call -----

  /** Everything the instruction reads and writes has a slot in a frame of n. */
  predicate InstrFits(i: Instr, n: nat) {
    match i
    case Compute(_, d, args) => d < n && forall k :: 0 <= k < |args| ==> args[k] < n
    case Print(a) => a < n
    case Move(d, s) => d < n && s < n
  }

  predicate CodeFits(code: seq<Instr>, n: nat) {
    forall i :: 0 <= i < |code| ==> InstrFits(code[i], n)
  }

  predicate TermFits(t: Hir.Term, n: nat) {
    forall o :: o in Hir.TermOperands(t) && o.Value? ==> o.id < n
  }

  /** The frame, with a slot for each of the function's values, is large enough for all its code. */
  predicate FitsFrame(f: Func) {
    forall b :: 0 <= b < |f.blocks| ==> BlockFits(f, b)
  }

  predicate BlockFits(f: Func, b: nat)
    requires b < |f.blocks|
  {
    CodeFits(f.blocks[b].code, f.lastValueId) && TermFits(f.blocks[b].term, f.lastValueId)
  }

  ghost predicate InFrame(regs: Regs, n: nat) {
    forall v :: v in regs ==> v < n
  }

  /** No run writes outside its frame. */
  lemma {:induction false} RunInFrame(f: Func, params: seq<int>, n: nat)
    requires FitsFrame(f)
    ensures var s := Run(f, params, n); s.At? ==> InFrame(s.regs, f.lastValueId)
  {
    if n > 0 {
      RunInFrame(f, params, n - 1);
      var s := Run(f, params, n - 1);
      if s.At? && s.block < |f.blocks| {
        assert BlockFits(f, s.block);
        var code := f.blocks[s.block].code;
        CodeInFrame(code, |code|, s.regs, s.out, params, f.lastValueId);
      }
    }
  }

  lemma {:induction false} CodeInFrame(code: seq<Instr>, n: nat, regs: Regs, out: seq<int>, params: seq<int>, size: nat)
    requires n <= |code| && CodeFits(code, size) && InFrame(regs, size)
    ensures var r := RunCode(code, n, regs, out, params); r.Done? ==> InFrame(r.regs, size)
  {
    if n > 0 {
      CodeInFrame(code, n - 1, regs, out, params, size);
      assert InstrFits(code[n - 1], size);
    }
  }
}
