/** What SSA construction has to produce: where phis go, and which value each variable reference becomes. */
module SsaForm {
  import opened Wrappers
  import opened Graph
  import opened Frontier
  import opened Hir

  // ----- phi placement -----

  ghost function DefBlocks(f: Func, v: Var): set<nat> {
    set b | 0 <= b < |f.blocks| && v in f.blocks[b].defs
  }

  /** The pruning test: some definition dominates each predecessor. */
  ghost predicate EveryPredDefined(g: Cfg, defs: set<nat>, b: nat) {
    forall p: nat :: g.Edge(p, b) ==> exists d :: d in defs && Dom(g, d, p)
  }

  ghost predicate NeedsPhi(f: Func, b: nat, v: Var) {
    b in IDF(f.Graph(), DefBlocks(f, v)) && EveryPredDefined(f.Graph(), DefBlocks(f, v), b)
  }

  function Placeholders(preds: seq<nat>, v: Var): (phis: seq<Incoming>)
    ensures |phis| == |preds|
  {
    seq(|preds|, k requires 0 <= k < |preds| => Incoming(preds[k], VarRef(v)))
  }

  /** How many instructions were put in front of block b's code. */
  function Shift(f: Func, f1: Func, b: nat): int
    requires b < |f.blocks| == |f1.blocks|
  {
    |f1.blocks[b].code| - |f.blocks[b].code|
  }

  /** f1 is f with the phis it needs in front of each block, one per variable, each with a value of its own. */
  ghost predicate PhisInserted(f: Func, f1: Func) {
    && f1.entry == f.entry && |f1.blocks| == |f.blocks| && f.lastValueId <= f1.lastValueId
    && SingleProducers(f1)
    && forall b :: 0 <= b < |f.blocks| ==> BlockExtended(f, f1, b)
  }

  ghost predicate BlockExtended(f: Func, f1: Func, b: nat)
    requires b < |f.blocks| == |f1.blocks|
  {
    var k := Shift(f, f1, b);
    && k >= 0
    && f1.blocks[b] == f.blocks[b].(code := f1.blocks[b].code[..k] + f.blocks[b].code)
    && (forall i :: 0 <= i < k ==> IsNewPhi(f, f1.blocks[b].code[i], f1.lastValueId, b))
    && (forall i, j :: 0 <= i < j < k ==> f1.blocks[b].code[i].phiVar != f1.blocks[b].code[j].phiVar)
    && (forall v :: NeedsPhi(f, b, v) ==> HasPhi(f1, b, v))
  }

  ghost predicate IsNewPhi(f: Func, i: Instr, bound: nat, b: nat)
    requires b < |f.blocks|
  {
    && i.Phi? && i.phiVar.Some? && f.lastValueId <= i.dst < bound
    && i == Phi(i.dst, Placeholders(f.blocks[b].preds, i.phiVar.value), None, i.phiVar)
    && NeedsPhi(f, b, i.phiVar.value)
  }

  ghost predicate HasPhi(f: Func, b: nat, v: Var)
    requires b < |f.blocks|
  {
    exists i :: 0 <= i < |f.blocks[b].code| && f.blocks[b].code[i].Phi? && f.blocks[b].code[i].phiVar == Some(v)
  }

  // ----- renaming -----

  /** The tops of the variable stacks. */
  type Env = map<Var, Val>

  function RenameOperand(env: Env, o: Operand): Operand {
    match o
    case VarRef(v) => if v in env then Value(env[v]) else o
    case Value(_) => o
  }

  function RenameOperands(env: Env, os: seq<Operand>): (r: seq<Operand>)
    ensures |r| == |os|
  {
    seq(|os|, k requires 0 <= k < |os| => RenameOperand(env, os[k]))
  }

  /** The value an instruction makes current, and for which variable. */
  function Push(env: Env, i: Instr): Env {
    match i
    case Compute(_, d, _, Some(v)) => env[v := d]
    case Bind(source, v) => (match RenameOperand(env, source)
                             case Value(id) => env[v := id]
                             case VarRef(_) => env)
    case Phi(d, _, _, Some(v)) => env[v := d]
    case Phi(d, _, Some(v), None) => env[v := d]
    case _ => env
  }

  ghost predicate Pushes(i: Instr, v: Var) {
    Defined(i) == Some(v) || (i.Phi? && i.phiVar == Some(v))
  }

  function PushAll(env: Env, code: seq<Instr>, n: nat): Env
    requires n <= |code|
  {
    if n == 0 then env else Push(PushAll(env, code, n - 1), code[n - 1])
  }

  /** The stack tops on entry to a block are those at the end of its immediate dominator. */
  ghost function EnvIn(f: Func, b: nat): Env
    requires WellFormed(f.Graph()) && b < |f.blocks|
    decreases |Doms(f.Graph(), b)|, 0
  {
    if b == f.entry then map[]
    else
      IDomShrinks(f.Graph(), b);
      EnvOut(f, IDom(f.Graph(), b))
  }

  ghost function EnvOut(f: Func, b: nat): Env
    requires WellFormed(f.Graph()) && b < |f.blocks|
    decreases |Doms(f.Graph(), b)|, 1
  {
    PushAll(EnvIn(f, b), f.blocks[b].code, |f.blocks[b].code|)
  }

  /** The stack tops before instruction i of block b. */
  ghost function EnvAt(f: Func, b: nat, i: nat): Env
    requires WellFormed(f.Graph()) && b < |f.blocks| && i <= |f.blocks[b].code|
  {
    PushAll(EnvIn(f, b), f.blocks[b].code, i)
  }

  function RenameInstr(env: Env, i: Instr): Instr {
    match i
    case Compute(op, d, args, s) => Compute(op, d, RenameOperands(env, args), s)
    case Print(a) => Print(RenameOperand(env, a))
    case Bind(a, v) => Bind(RenameOperand(env, a), v)
    case Phi(_, _, _, _) => i
  }

  function RenameTerm(env: Env, t: Term): Term {
    match t
    case Branch(c, x, y) => Branch(RenameOperand(env, c), x, y)
    case Return(Some(o)) => Return(Some(RenameOperand(env, o)))
    case _ => t
  }

  /** A phi's entry is renamed with the stack tops at the end of the predecessor it belongs to. */
  ghost function RenameIncoming(f: Func, e: Incoming): Incoming
    requires WellFormed(f.Graph())
  {
    if e.pred < |f.blocks| then e.(value := RenameOperand(EnvOut(f, e.pred), e.value)) else e
  }

  ghost function RenamePhis(f: Func, phis: seq<Incoming>): (r: seq<Incoming>)
    requires WellFormed(f.Graph())
    ensures |r| == |phis|
  {
    seq(|phis|, k requires 0 <= k < |phis| => RenameIncoming(f, phis[k]))
  }

  ghost function RenamedInstr(f: Func, b: nat, i: nat): Instr
    requires WellFormed(f.Graph()) && b < |f.blocks| && i < |f.blocks[b].code|
  {
    var ins := f.blocks[b].code[i];
    if ins.Phi? then ins.(phis := RenamePhis(f, ins.phis)) else RenameInstr(EnvAt(f, b, i), ins)
  }

  ghost function RenamedBlock(f: Func, b: nat): (r: Block)
    requires WellFormed(f.Graph()) && b < |f.blocks|
    ensures |r.code| == |f.blocks[b].code| && r.preds == f.blocks[b].preds && r.succs == f.blocks[b].succs
  {
    var blk := f.blocks[b];
    blk.(code := seq(|blk.code|, i requires 0 <= i < |blk.code| => RenamedInstr(f, b, i)),
         term := RenameTerm(EnvOut(f, b), blk.term))
  }

  ghost function Renamed(f: Func): (r: Func)
    requires WellFormed(f.Graph())
    ensures |r.blocks| == |f.blocks| && r.entry == f.entry && r.lastValueId == f.lastValueId
  {
    f.(blocks := seq(|f.blocks|, b requires 0 <= b < |f.blocks| => RenamedBlock(f, b)))
  }

  /** r is f in SSA form, f1 being f with its phis inserted. */
  ghost predicate IsSsaOf(f: Func, f1: Func, r: Func) {
    PhisInserted(f, f1) && WellFormed(f1.Graph()) && r == Renamed(f1)
  }

  // ----- scoping -----

  /** The definitions recorded on a block are those its code makes. */
  ghost predicate DefsRecorded(f: Func) {
    forall b, v :: 0 <= b < |f.blocks| ==> (v in f.blocks[b].defs <==> Defines(f.blocks[b].code, v))
  }

  /** v has a value just before instruction i of block b: it was declared in a block strictly above, or has
      been defined earlier in this block. */
  ghost predicate Visible(f: Func, decl: map<Var, nat>, v: Var, b: nat, i: nat)
    requires b < |f.blocks| && i <= |f.blocks[b].code|
  {
    && v in decl
    && (SDom(f.Graph(), decl[v], b) || exists j :: 0 <= j < i && Defined(f.blocks[b].code[j]) == Some(v))
  }

  ghost predicate OperandsVisible(f: Func, decl: map<Var, nat>, os: seq<Operand>, b: nat, i: nat)
    requires b < |f.blocks| && i <= |f.blocks[b].code|
  {
    forall o :: o in os && o.VarRef? ==> Visible(f, decl, o.sym, b, i)
  }

  ghost predicate PhiVisible(f: Func, decl: map<Var, nat>, i: Instr) {
    i.Phi? ==> forall e :: e in i.phis && e.pred < |f.blocks| && e.value.VarRef?
                 ==> Visible(f, decl, e.value.sym, e.pred, |f.blocks[e.pred].code|)
  }

  /** Every variable has a declaring block that defines it and dominates its other definitions, and it is
      only read where it is visible. */
  ghost predicate WellScoped(f: Func, decl: map<Var, nat>) {
    && (forall v :: v in decl ==> decl[v] in DefBlocks(f, v))
    && (forall v, b :: b in DefBlocks(f, v) ==> v in decl && Dom(f.Graph(), decl[v], b))
    && (forall b, i :: 0 <= b < |f.blocks| && 0 <= i < |f.blocks[b].code| ==> InstrScoped(f, decl, b, i))
    && (forall b :: 0 <= b < |f.blocks| ==> TermScoped(f, decl, b))
  }

  ghost predicate InstrScoped(f: Func, decl: map<Var, nat>, b: nat, i: nat)
    requires b < |f.blocks| && i < |f.blocks[b].code|
  {
    OperandsVisible(f, decl, Operands(f.blocks[b].code[i]), b, i) && PhiVisible(f, decl, f.blocks[b].code[i])
  }

  ghost predicate TermScoped(f: Func, decl: map<Var, nat>, b: nat)
    requires b < |f.blocks|
  {
    OperandsVisible(f, decl, TermOperands(f.blocks[b].term), b, |f.blocks[b].code|)
  }

  /** Value d has been produced by the time control is just before instruction i of block b. */
  ghost predicate Available(f: Func, d: Val, b: nat, i: nat) {
    exists c: nat, j: nat :: Produces(f, c, j, d) && ((c == b && j < i) || SDom(f.Graph(), c, b))
  }

  ghost predicate OperandsAvailable(f: Func, os: seq<Operand>, b: nat, i: nat) {
    forall o :: o in os && o.Value? ==> Available(f, o.id, b, i)
  }

  ghost predicate PhiAvailable(f: Func, i: Instr) {
    i.Phi? ==> forall e :: e in i.phis && e.pred < |f.blocks| && e.value.Value?
                 ==> Available(f, e.value.id, e.pred, |f.blocks[e.pred].code|)
  }

  /** Every value is produced before it is read, on every path. */
  ghost predicate ValuesProduced(f: Func) {
    && (forall b, i :: 0 <= b < |f.blocks| && 0 <= i < |f.blocks[b].code| ==> InstrSupplied(f, b, i))
    && (forall b :: 0 <= b < |f.blocks| ==> TermSupplied(f, b))
  }

  ghost predicate InstrSupplied(f: Func, b: nat, i: nat)
    requires b < |f.blocks| && i < |f.blocks[b].code|
  {
    OperandsAvailable(f, Operands(f.blocks[b].code[i]), b, i) && PhiAvailable(f, f.blocks[b].code[i])
  }

  ghost predicate TermSupplied(f: Func, b: nat)
    requires b < |f.blocks|
  {
    OperandsAvailable(f, TermOperands(f.blocks[b].term), b, |f.blocks[b].code|)
  }

  /** No phi stands for a source variable yet. */
  ghost predicate NoVarPhis(f: Func) {
    forall b, i :: 0 <= b < |f.blocks| && 0 <= i < |f.blocks[b].code| ==> !IsVarPhi(f, b, i)
  }

  ghost predicate IsVarPhi(f: Func, b: nat, i: nat)
    requires b < |f.blocks| && i < |f.blocks[b].code|
  {
    f.blocks[b].code[i].Phi? && f.blocks[b].code[i].phiVar.Some?
  }

  /** A function ready for SSA construction. */
  ghost predicate Ready(f: Func, decl: map<Var, nat>) {
    Shaped(f) && DefsRecorded(f) && WellScoped(f, decl) && ValuesProduced(f) && NoVarPhis(f)
  }
}
