/** The states an `if` and a loop pass through while they are lowered. */
module LoweringSteps {
  import opened Wrappers
  import opened Hir
  import opened Lowering
  import opened LoweringGrowth
  import Source

  lemma JumpUnlessDoneFacts(st: Builder, b: nat)
    requires st.cur < |st.blocks| && b < |st.blocks|
    ensures var s := JumpUnlessDone(st, b);
            && Untouched(st, s, {st.cur}) && |s.blocks| == |st.blocks| && s.cur == st.cur && s.loops == st.loops
            && s.blocks[st.cur].code == st.blocks[st.cur].code
            && s.blocks[st.cur].term == (if st.Ready() then Some(Jump(b)) else st.blocks[st.cur].term)
            && (st.Terminated() ==> SameAt(st.blocks, s.blocks, st.cur))
  {
  }

  /** The states an `if` passes through: condition done (ready, with its value in cond), then arm started and
      done, else arm started (the merge block, when there is none) and done, all done. */
  datatype IfStates = IfStates(before: Builder, hasElse: bool, ready: Builder, cond: Operand, inThen: Builder,
                               afterThen: Builder, inElse: Builder, afterElse: Builder, done: Builder)

  ghost predicate IfSteps(p: IfStates) {
    var n := |p.before.blocks|;
    && p.before.Ready() && Grows(IfBlocks(p.hasElse, p.before), p.ready) && p.ready.Ready()
    && p.inThen == ThenArm(p.hasElse, p.ready, p.cond, n) && Grows(p.inThen, p.afterThen)
    && p.inElse == JumpUnlessDone(p.afterThen, n + 1).(cur := if p.hasElse then n + 2 else n + 1)
    && (p.hasElse ==> Grows(p.inElse, p.afterElse) && p.done == JumpUnlessDone(p.afterElse, n + 1).(cur := n + 1))
    && (!p.hasElse ==> p.afterElse == p.inElse && p.done == p.inElse)
  }

  lemma IfReady(p: IfStates)
    requires IfSteps(p)
    ensures InArm(p.before, p.hasElse, p.inThen, 0) && p.inThen.Ready() && p.inThen.Code() == []
    ensures p.inElse.Ready() && p.inElse.Code() == [] && p.done.Ready() && p.done.Code() == []
    ensures p.done.cur == |p.before.blocks| + 1
  {
    ThenFacts(p.before, p.hasElse, p.ready, p.cond);
    ArmEnds(p.before, p.hasElse, p.inThen, p.afterThen, 0);
    if p.hasElse { ArmEnds(p.before, true, p.inElse, p.afterElse, 1); }
  }

  /** The states a loop passes through: condition started and done (ready, with its value in cond), body
      started and done, all done. */
  datatype WhileStates = WhileStates(before: Builder, inCond: Builder, ready: Builder, cond: Operand,
                                     inBody: Builder, afterBody: Builder, done: Builder)
  {
    /** The block of the condition. */
    function Head(): nat { |before.blocks| }
  }

  ghost predicate WhileSteps(p: WhileStates) {
    var n := |p.before.blocks|;
    && p.before.Ready() && p.inCond == WhileBlocks(p.before) && Grows(p.inCond, p.ready) && p.ready.Ready()
    && p.inBody == WhileBody(p.ready, p.cond, n) && Grows(p.inBody, p.afterBody)
    && p.done == JumpUnlessDone(p.afterBody, n).(cur := n + 2, loops := p.before.loops)
  }

  lemma WhileReady(p: WhileStates)
    requires WhileSteps(p)
    ensures p.inCond.Ready() && p.inCond.Code() == [] && p.inCond.cur == |p.before.blocks|
    ensures p.inBody.Ready() && p.inBody.Code() == [] && p.inBody.cur == |p.before.blocks| + 1
    ensures p.inBody.loops == p.before.loops + [Loop(|p.before.blocks|, |p.before.blocks| + 2)]
    ensures p.done.Ready() && p.done.Code() == [] && p.done.cur == |p.before.blocks| + 2
  {
    hide JumpTo, JumpUnlessDone, Untouched;
    var n := |p.before.blocks|;
    WhileBlocksFacts(p.before);
    assert SameBody(EMPTY, p.inCond.blocks[n + 1]) && SameBody(EMPTY, p.inCond.blocks[n + 2]);
    WhileBodyFacts(p.inCond, p.ready, p.cond, n);
    JumpUnlessDoneFacts(p.afterBody, n);
    UntouchedTrans(p.inBody, p.afterBody, p.done, {n + 1}, {p.afterBody.cur});
    assert SameAt(p.inCond.blocks, p.inBody.blocks, n + 1) && SameAt(p.inCond.blocks, p.inBody.blocks, n + 2);
    assert SameAt(p.inBody.blocks, p.done.blocks, n + 2);
  }

  lemma ThenIsReady(c: Source.Expr, els: bool, st: Builder) returns (s2: Builder, x: Operand, s3: Builder)
    requires st.Ready()
    ensures (s2, x) == LowerExpr(c, IfBlocks(els, st)) && s3 == ThenStart(c, els, st)
    ensures s3 == ThenArm(els, s2, x, |st.blocks|)
    ensures Grows(IfBlocks(els, st), s2) && s2.Ready() && InArm(st, els, s3, 0) && s3.Ready()
  {
    IfBlocksFacts(els, st);
    ExprGrows(c, IfBlocks(els, st));
    ThenStartGrows(c, els, st);
    s2, x := LowerExpr(c, IfBlocks(els, st)).0, LowerExpr(c, IfBlocks(els, st)).1;
    s3 := ThenStart(c, els, st);
  }

  lemma AfterThen(st: Builder, els: bool, s3: Builder, a: Builder) returns (s5: Builder)
    requires st.Ready() && LoopsIn(st) && InArm(st, els, s3, 0) && s3.Ready() && s3.cur == |st.blocks| && Grows(s3, a)
    ensures s5 == JumpUnlessDone(a, |st.blocks| + 1).(cur := if els then |st.blocks| + 2 else |st.blocks| + 1)
    ensures s5.Ready() && LoopsIn(s5) && s5.loops == st.loops
  {
    ArmEnds(st, els, s3, a, 0);
    s5 := JumpUnlessDone(a, |st.blocks| + 1).(cur := if els then |st.blocks| + 2 else |st.blocks| + 1);
  }

  lemma ThenIsSteps(c: Source.Expr, t: Source.Stmt, els: bool, st: Builder)
    returns (s2: Builder, x: Operand, s3: Builder, a: Builder, s5: Builder)
    requires st.Ready() && LoopsIn(st)
    ensures (s2, x) == LowerExpr(c, IfBlocks(els, st)) && s3 == ThenStart(c, els, st)
    ensures s3 == ThenArm(els, s2, x, |st.blocks|)
    ensures Grows(IfBlocks(els, st), s2) && s2.Ready()
    ensures LoopsIn(s3) && s3.loops == st.loops && a == LowerStmt(t, s3) && Grows(s3, a)
    ensures s5 == JumpUnlessDone(a, |st.blocks| + 1).(cur := if els then |st.blocks| + 2 else |st.blocks| + 1)
    ensures s5.Ready() && LoopsIn(s5) && s5.loops == st.loops
  {
    s2, x, s3 := ThenIsReady(c, els, st);
    a := LowerStmt(t, s3);
    StmtGrows(t, s3);
    s5 := AfterThen(st, els, s3, a);
  }

  /** The states an `if` passes through, from its source. */
  lemma IfIsSteps(c: Source.Expr, t: Source.Stmt, els: Option<Source.Stmt>, st: Builder) returns (p: IfStates)
    requires st.Ready() && LoopsIn(st)
    ensures p.before == st && p.hasElse == els.Some? && IfSteps(p) && p.done == LowerIf(c, t, els, st)
    ensures (p.ready, p.cond) == LowerExpr(c, IfBlocks(els.Some?, st))
    ensures LoopsIn(p.inThen) && p.inThen.loops == st.loops && p.afterThen == LowerStmt(t, p.inThen)
    ensures els.Some? ==> LoopsIn(p.inElse) && p.inElse.loops == st.loops
    ensures els.Some? ==> p.afterElse == LowerStmt(els.value, p.inElse)
  {
    hide LowerStmt, LowerExpr, LowerIf, ThenStart;
    var s2, x, s3, a, s5 := ThenIsSteps(c, t, els.Some?, st);
    var b := s5;
    if els.Some? {
      b := LowerStmt(els.value, s5);
      StmtGrows(els.value, s5);
    }
    IfParts(c, t, els, st);
    p := IfStates(st, els.Some?, s2, x, s3, a, s5, b, LowerIf(c, t, els, st));
  }

  /** The states a loop passes through, from its source. */
  lemma WhileIsSteps(c: Source.Expr, b: Source.Stmt, st: Builder) returns (p: WhileStates)
    requires st.Ready() && LoopsIn(st)
    ensures p.before == st && WhileSteps(p) && p.done == LowerWhile(c, b, st) && p.inBody == WhileStart(c, st)
    ensures (p.ready, p.cond) == LowerExpr(c, p.inCond) && LoopsIn(p.inBody) && p.afterBody == LowerStmt(b, p.inBody)
  {
    hide LowerStmt, LowerExpr, LowerWhile;
    WhileBlocksFacts(st);
    var s1 := WhileBlocks(st);
    ExprGrows(c, s1);
    var (s2, x) := LowerExpr(c, s1);
    WhileStartGrows(c, st);
    var s3 := WhileStart(c, st);
    StmtGrows(b, s3);
    WhileParts(c, b, st);
    p := WhileStates(st, s1, s2, x, s3, LowerStmt(b, s3), LowerWhile(c, b, st));
  }
}
