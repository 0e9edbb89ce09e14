/** Lowering structured code to a control-flow graph, as a function of the state under construction. */
module Lowering {
  import opened Wrappers
  import opened Hir
  import Source

  /** A block being filled; it has no terminator until control leaves it. */
  datatype Draft = Draft(code: seq<Instr>, term: Option<Term>, preds: seq<nat>, succs: seq<nat>, defs: seq<Var>)

  datatype Loop = Loop(continueTarget: nat, breakTarget: nat)

  datatype Builder = Builder(blocks: seq<Draft>, cur: nat, nextId: nat, loops: seq<Loop>)
  {
    /** The block being filled exists and is still open. */
    predicate Ready() { cur < |blocks| && blocks[cur].term == None }

    function Code(): seq<Instr>
      requires cur < |blocks|
    {
      blocks[cur].code
    }

    predicate Terminated()
      requires cur < |blocks|
    {
      blocks[cur].term.Some?
    }
  }

  const EMPTY: Draft := Draft([], None, [], [], [])

  // ----- primitive steps -----

  function MakeBlock(st: Builder): Builder {
    st.(blocks := st.blocks + [EMPTY])
  }

  function Emit(st: Builder, i: Instr): Builder
    requires st.cur < |st.blocks|
  {
    st.(blocks := st.blocks[st.cur := st.blocks[st.cur].(code := st.blocks[st.cur].code + [i])])
  }

  /** An instruction that produces the next value. */
  function Produce(st: Builder, op: Op, args: seq<Operand>): Builder
    requires st.cur < |st.blocks|
  {
    Emit(st, Compute(op, st.nextId, args, None)).(nextId := st.nextId + 1)
  }

  function Connect(st: Builder, p: nat, b: nat): Builder
    requires p < |st.blocks| && b < |st.blocks|
  {
    var blocks := st.blocks[p := st.blocks[p].(succs := st.blocks[p].succs + [b])];
    st.(blocks := blocks[b := blocks[b].(preds := blocks[b].preds + [p])])
  }

  function SetTerm(st: Builder, t: Term): Builder
    requires st.cur < |st.blocks|
  {
    st.(blocks := st.blocks[st.cur := st.blocks[st.cur].(term := Some(t))])
  }

  /** Ends the current block with a jump. */
  function JumpTo(st: Builder, b: nat): Builder
    requires st.cur < |st.blocks| && b < |st.blocks|
  {
    Connect(SetTerm(st, Jump(b)), st.cur, b)
  }

  /** Ends the current block with a branch. */
  function BranchTo(st: Builder, c: Operand, t: nat, f: nat): Builder
    requires st.cur < |st.blocks| && t < |st.blocks| && f < |st.blocks|
  {
    Connect(Connect(SetTerm(st, Branch(c, t, f)), st.cur, t), st.cur, f)
  }

  function JumpUnlessDone(st: Builder, b: nat): Builder
    requires st.cur < |st.blocks| && b < |st.blocks|
  {
    if st.Terminated() then st else JumpTo(st, b)
  }

  // ----- expressions -----

  function BinaryToIr(op: Source.BinaryOp): Op {
    match op
    case Plus => Add
    case Minus => Sub
    case Star => Mul
    case Slash => Div
    case Percent => Mod
    case EqualEqual => Equal
    case NotEqual => NotEqual
    case Less => Less
    case LessEqual => LessEqual
    case Greater => Greater
    case GreaterEqual => GreaterEqual
  }

  function UnaryToIr(op: Source.UnaryOp): Op {
    match op
    case Negate => Neg
    case LogicalNot => LogicalNot
  }

  /** The result is the operand that holds the expression's value. */
  function LowerExpr(e: Source.Expr, st: Builder): (r: (Builder, Operand))
    requires st.cur < |st.blocks|
    ensures r.0.cur < |r.0.blocks| && |st.blocks| <= |r.0.blocks| && r.0.loops == st.loops
    decreases e, 0
  {
    match e
    case Literal(c) => (Produce(st, ConstInt(c.Word()), []), Value(st.nextId))
    case Variable(v) => (st, VarRef(v))
    case Binary(op, l, r) =>
      var (s1, x) := LowerExpr(l, st);
      var (s2, y) := LowerExpr(r, s1);
      (Produce(s2, BinaryToIr(op), [x, y]), Value(s2.nextId))
    case Unary(op, a) =>
      var (s1, x) := LowerExpr(a, st);
      (Produce(s1, UnaryToIr(op), [x]), Value(s1.nextId))
    case LogicalAnd(l, r) =>
      var (s1, x) := LowerExpr(l, st);
      AndRest(r, s1, x)
    case LogicalOr(l, r) =>
      var (s1, x) := LowerExpr(l, st);
      OrRest(r, s1, x, false)
    case NullCoalesce(l, r) =>
      var (s1, x) := LowerExpr(l, st);
      OrRest(r, s1, x, true)
  }

  /** Three fresh blocks, and a branch to the first two. */
  function Split(s1: Builder, x: Operand): (s2: Builder)
    requires s1.cur < |s1.blocks|
    ensures |s2.blocks| == |s1.blocks| + 3 && s2.cur == s1.cur && s2.loops == s1.loops
  {
    BranchTo(MakeBlock(MakeBlock(MakeBlock(s1))), x, |s1.blocks|, |s1.blocks| + 1)
  }

  /** The merge block starts with a phi of the two arms' results. */
  function Merge(st: Builder, m: nat, p: nat, x: Operand, q: nat, y: Operand): (Builder, Operand)
    requires m < |st.blocks|
  {
    var s := Emit(st.(cur := m), Phi(st.nextId, [Incoming(p, x), Incoming(q, y)], None, None));
    (s.(nextId := st.nextId + 1), Value(st.nextId))
  }

  /** After the left operand of `&&`: the right one on the true edge, 0 on the false edge. */
  function AndRest(r: Source.Expr, s1: Builder, x: Operand): (res: (Builder, Operand))
    requires s1.cur < |s1.blocks|
    ensures res.0.cur < |res.0.blocks| && |s1.blocks| <= |res.0.blocks| && res.0.loops == s1.loops
    decreases r, 1
  {
    var n := |s1.blocks|;
    var (s3, y) := LowerExpr(r, Split(s1, x).(cur := n));
    AndMerge(s3, y, n)
  }

  /** The right operand's end and the false block, which gives 0, meet. */
  function AndMerge(s3: Builder, y: Operand, n: nat): (res: (Builder, Operand))
    requires s3.cur < |s3.blocks| && n + 2 < |s3.blocks|
    ensures res.0.cur == n + 2 && |res.0.blocks| == |s3.blocks| && res.0.loops == s3.loops
  {
    var s4 := JumpTo(s3, n + 2);
    var s5 := JumpTo(Produce(s4.(cur := n + 1), ConstInt(0), []), n + 2);
    Merge(s5, n + 2, s3.cur, y, n + 1, Value(s4.nextId))
  }

  /** The true edge of `||` or `??` gives 1 or the left value; the false edge is current next. */
  function OrMiddle(s1: Builder, x: Operand, keepsLeft: bool): (s4: Builder)
    requires s1.cur < |s1.blocks|
    ensures |s4.blocks| == |s1.blocks| + 3 && s4.cur == |s1.blocks| + 1 && s4.loops == s1.loops
  {
    var n := |s1.blocks|;
    var s2 := Split(s1, x).(cur := n);
    var s3 := if keepsLeft then s2 else Produce(s2, ConstInt(1), []);
    JumpTo(s3, n + 2).(cur := n + 1)
  }

  /** After the left operand of `||` or `??`: the right operand runs on the false edge only. */
  function OrRest(r: Source.Expr, s1: Builder, x: Operand, keepsLeft: bool): (res: (Builder, Operand))
    requires s1.cur < |s1.blocks|
    ensures res.0.cur < |res.0.blocks| && |s1.blocks| <= |res.0.blocks| && res.0.loops == s1.loops
    decreases r, 1
  {
    var n := |s1.blocks|;
    var (s5, y) := LowerExpr(r, OrMiddle(s1, x, keepsLeft));
    OrMerge(s5, y, if keepsLeft then x else Value(s1.nextId), n)
  }

  /** The true block, which gives v, and the right operand's end meet. */
  function OrMerge(s5: Builder, y: Operand, v: Operand, n: nat): (res: (Builder, Operand))
    requires s5.cur < |s5.blocks| && n + 2 < |s5.blocks|
    ensures res.0.cur == n + 2 && |res.0.blocks| == |s5.blocks| && res.0.loops == s5.loops
  {
    Merge(JumpTo(s5, n + 2), n + 2, n, v, s5.cur, y)
  }

  // ----- statements -----

  function Tag(i: Instr, v: Var): Instr {
    match i
    case Compute(op, d, args, _) => Compute(op, d, args, Some(v))
    case Phi(d, phis, _, p) => Phi(d, phis, Some(v), p)
    case _ => i
  }

  /** Marks the last instruction as the definition of v. */
  function TagLast(st: Builder, v: Var): Builder
    requires st.cur < |st.blocks|
  {
    var code := st.Code();
    if code == [] then st
    else st.(blocks := st.blocks[st.cur := st.blocks[st.cur].(code := code[|code| - 1 := Tag(code[|code| - 1], v)])])
  }

  function RecordDef(st: Builder, v: Var): Builder
    requires st.cur < |st.blocks|
  {
    st.(blocks := st.blocks[st.cur := st.blocks[st.cur].(defs := st.blocks[st.cur].defs + [v])])
  }

  /** Connects v to the value it is given: an alias is bound, a producer is marked. */
  function BindLocal(st: Builder, v: Var, o: Operand): Builder
    requires st.cur < |st.blocks|
  {
    var s := RecordDef(st, v);
    if o.VarRef? then Emit(s, Bind(o, v)) else TagLast(s, v)
  }

  function LowerStmt(s: Source.Stmt, st: Builder): (r: Builder)
    requires st.cur < |st.blocks| && LoopsIn(st)
    ensures r.cur < |r.blocks| && |st.blocks| <= |r.blocks| && r.loops == st.loops
    decreases s, 1
  {
    match s
    case Let(v, e) =>
      var (s1, o) := LowerExpr(e, st);
      BindLocal(s1, v, o)
    case Assign(v, e) =>
      var (s1, o) := LowerExpr(e, st);
      BindLocal(s1, v, o)
    case Print(e) =>
      var (s1, o) := LowerExpr(e, st);
      Emit(s1, Hir.Print(o))
    case ExprStmt(e) =>
      LowerExpr(e, st).0
    case If(c, t, els) => LowerIf(c, t, els, st)
    case While(c, b) => LowerWhile(c, b, st)
    case Block(ss) => LowerAll(ss, st)
    case Break => if st.loops == [] then st else JumpTo(st, st.loops[|st.loops| - 1].breakTarget)
    case Continue => if st.loops == [] then st else JumpTo(st, st.loops[|st.loops| - 1].continueTarget)
    case Return(e) =>
      var (s1, o) := LowerExpr(e, st);
      SetTerm(s1, Hir.Return(Some(o)))
  }

  predicate LoopsIn(st: Builder) {
    forall i :: 0 <= i < |st.loops|
      ==> st.loops[i].continueTarget < |st.blocks| && st.loops[i].breakTarget < |st.blocks|
  }

  /** The blocks of an `if`, made before its condition is lowered: then, merge and, if there is one, else. */
  function IfBlocks(hasElse: bool, st: Builder): (s: Builder)
    ensures |s.blocks| == |st.blocks| + (if hasElse then 3 else 2) && s.cur == st.cur && s.loops == st.loops
  {
    var s0 := MakeBlock(MakeBlock(st));
    if hasElse then MakeBlock(s0) else s0
  }

  /** The condition, a branch, and control at the then arm. */
  function ThenStart(c: Source.Expr, hasElse: bool, st: Builder): (s: Builder)
    requires st.cur < |st.blocks|
    ensures |s.blocks| >= |st.blocks| + (if hasElse then 3 else 2) && s.cur == |st.blocks| && s.loops == st.loops
  {
    var (s2, x) := LowerExpr(c, IfBlocks(hasElse, st));
    ThenArm(hasElse, s2, x, |st.blocks|)
  }

  /** From the end of the condition into the then arm of the `if` whose blocks start at n. */
  function ThenArm(hasElse: bool, s2: Builder, x: Operand, n: nat): (s: Builder)
    requires s2.cur < |s2.blocks| && (if hasElse then n + 2 else n + 1) < |s2.blocks|
    ensures |s.blocks| == |s2.blocks| && s.cur == n && s.loops == s2.loops
  {
    BranchTo(s2, x, n, if hasElse then n + 2 else n + 1).(cur := n)
  }

  function LowerIf(c: Source.Expr, t: Source.Stmt, els: Option<Source.Stmt>, st: Builder): (r: Builder)
    requires st.cur < |st.blocks| && LoopsIn(st)
    ensures r.cur < |r.blocks| && |st.blocks| <= |r.blocks| && r.loops == st.loops
    decreases Source.If(c, t, els), 0
  {
    LowerElse(els, LowerArm(t, ThenStart(c, els.Some?, st), |st.blocks| + 1), |st.blocks|)
  }

  /** The rest of the `if` whose blocks start at n, after its then arm; control ends at the merge block. */
  function LowerElse(els: Option<Source.Stmt>, s4: Builder, n: nat): (r: Builder)
    requires s4.cur < |s4.blocks| && LoopsIn(s4) && (if els.Some? then n + 2 else n + 1) < |s4.blocks|
    ensures r.cur < |r.blocks| && |s4.blocks| <= |r.blocks| && r.loops == s4.loops
    decreases els, 3
  {
    (if els.None? then s4 else LowerArm(els.value, s4.(cur := n + 2), n + 1)).(cur := n + 1)
  }

  /** A statement after which control continues at block m, unless it has already gone elsewhere. */
  function LowerArm(t: Source.Stmt, s3: Builder, m: nat): (r: Builder)
    requires s3.cur < |s3.blocks| && LoopsIn(s3) && m < |s3.blocks|
    ensures r.cur < |r.blocks| && |s3.blocks| <= |r.blocks| && r.loops == s3.loops
    decreases t, 2
  {
    JumpUnlessDone(LowerStmt(t, s3), m)
  }

  /** The blocks of a loop: condition, body and exit. Control moves to the condition. */
  function WhileBlocks(st: Builder): (s: Builder)
    requires st.cur < |st.blocks|
    ensures |s.blocks| == |st.blocks| + 3 && s.cur == |st.blocks| && s.loops == st.loops
  {
    var n := |st.blocks|;
    JumpTo(MakeBlock(MakeBlock(MakeBlock(st))), n).(cur := n)
  }

  /** From the end of the condition into the body of the loop whose blocks start at n. */
  function WhileBody(s2: Builder, x: Operand, n: nat): (s: Builder)
    requires s2.cur < |s2.blocks| && n + 2 < |s2.blocks|
    ensures |s.blocks| == |s2.blocks| && s.cur == n + 1 && s.loops == s2.loops + [Loop(n, n + 2)]
  {
    BranchTo(s2, x, n + 1, n + 2).(cur := n + 1, loops := s2.loops + [Loop(n, n + 2)])
  }

  /** The condition, in a block of its own, and control at the body. */
  function WhileStart(c: Source.Expr, st: Builder): (s: Builder)
    requires st.cur < |st.blocks|
    ensures |s.blocks| >= |st.blocks| + 3 && s.cur == |st.blocks| + 1
    ensures s.loops == st.loops + [Loop(|st.blocks|, |st.blocks| + 2)]
  {
    var (s2, x) := LowerExpr(c, WhileBlocks(st));
    WhileBody(s2, x, |st.blocks|)
  }

  function LowerWhile(c: Source.Expr, b: Source.Stmt, st: Builder): (r: Builder)
    requires st.cur < |st.blocks| && LoopsIn(st)
    ensures r.cur < |r.blocks| && |st.blocks| <= |r.blocks| && r.loops == st.loops
    decreases Source.While(c, b), 0
  {
    LowerArm(b, WhileStart(c, st), |st.blocks|).(cur := |st.blocks| + 2, loops := st.loops)
  }

  /** Statements after one that leaves the block are dead and not lowered. */
  function LowerAll(ss: seq<Source.Stmt>, st: Builder): (r: Builder)
    requires st.cur < |st.blocks| && LoopsIn(st)
    ensures r.cur < |r.blocks| && |st.blocks| <= |r.blocks| && r.loops == st.loops
    decreases ss, 2
  {
    if ss == [] || st.Terminated() then st else LowerAll(ss[1..], LowerStmt(ss[0], st))
  }

  // ----- functions -----

  /** Parameters are values of their own, defined in the entry block. */
  function LowerParams(params: seq<Var>, n: nat): (st: Builder)
    requires n <= |params|
    ensures |st.blocks| == 1 && st.cur == 0 && st.loops == []
  {
    if n == 0 then Builder([EMPTY], 0, 0, [])
    else
      var st := LowerParams(params, n - 1);
      RecordDef(TagLast(Produce(st, Param(n - 1), []), params[n - 1]), params[n - 1])
  }

  /** A body that falls off its end returns nothing. */
  function Finished(st: Builder): Func {
    Func(0, seq(|st.blocks|, b requires 0 <= b < |st.blocks| => FinishedBlock(st.blocks[b])), st.nextId)
  }

  function FinishedBlock(d: Draft): Hir.Block {
    Hir.Block(d.code, match d.term case Some(t) => t case None => Hir.Return(None), d.preds, d.succs, d.defs)
  }

  function LowerFunction(f: Source.Function): Func {
    Finished(LowerStmt(f.body, LowerParams(f.params, |f.params|)))
  }
}
