/** Lowering structured code is right: the control-flow graph does what the source does, for any nesting of
    if, while, break, continue and return. */
module LoweringCorrect {
  import opened Wrappers
  import opened Hir
  import opened Lowering
  import opened LoweringGrowth
  import opened LoweringSteps
  import opened LoweringSim
  import opened Scoping
  import opened LoweringEnds
  import Source

  /** Running from s for k blocks does what the flow r says: go on at the end of fin, leave the innermost
      loop or start it again, or stop. A run out of fuel has gone on for at least that many blocks. */
  ghost predicate Does(f: Func, params: seq<int>, s: State, loops: seq<Loop>, r: Source.Flow, fin: Builder,
                       fuel: nat, k: nat, fr: Frame)
    requires fin.cur < |fin.blocks| <= |f.blocks|
  {
    var t := RunFrom(f, params, s, k);
    match r
    case Next(v, o) => fin.Ready() && t == Here(f, params, fin, fr) && fr.vars == v && fr.out == o
    case Broke(v, o) => loops != [] && t == At(loops[|loops| - 1].breakTarget, fr) && fr.vars == v && fr.out == o
    case Continued(v, o) => loops != [] && t == At(loops[|loops| - 1].continueTarget, fr) && fr.vars == v && fr.out == o
    case Returned(x, o) => t == Stopped(Returned(Some(x)), o)
    case Trapped(o) => t == Stopped(Trapped, o)
    case OutOfFuel(o) => t.At? && t.frame.out == o && k >= fuel
  }

  ghost predicate Performs(f: Func, params: seq<int>, s: State, loops: seq<Loop>, r: Source.Flow, fin: Builder,
                           fuel: nat)
    requires fin.cur < |fin.blocks| <= |f.blocks|
  {
    exists k: nat, fr :: Does(f, params, s, loops, r, fin, fuel, k, fr)
  }

  lemma PerformsLater(f: Func, params: seq<int>, s: State, j: nat, t: State, loops: seq<Loop>, r: Source.Flow,
                      fin: Builder, fuel: nat, more: nat)
    requires fin.cur < |fin.blocks| <= |f.blocks| && more <= fuel + j
    requires RunFrom(f, params, s, j) == t && Performs(f, params, t, loops, r, fin, fuel)
    ensures Performs(f, params, s, loops, r, fin, more)
  {
    var k: nat, fr :| Does(f, params, t, loops, r, fin, fuel, k, fr);
    RunFromSum(f, params, s, j, k);
    assert Does(f, params, s, loops, r, fin, more, j + k, fr);
  }

  /** The blocks loops jump to hold no phis. */
  ghost predicate HeadsPlain(f: Func, loops: seq<Loop>) {
    forall i :: 0 <= i < |loops| ==> PlainAt(f, loops[i].breakTarget) && PlainAt(f, loops[i].continueTarget)
  }

  ghost predicate PlainAt(f: Func, b: nat) {
    b < |f.blocks| && PhiFree(f.blocks[b].code, 0)
  }

  // ----- single statements -----

  /** From the end of an expression's code, with its value in operand o, the flow is r. */
  ghost predicate Resumes(f: Func, params: seq<int>, s1: Builder, o: Operand, e: Option<int>, fr: Frame, d: Option<Var>,
                          loops: seq<Loop>, r: Source.Flow, fin: Builder, fuel: nat)
    requires s1.cur < |s1.blocks| <= |f.blocks| && fin.cur < |fin.blocks| <= |f.blocks|
  {
    forall fr1: Frame :: e == Some(OperandValue(fr1, o)) && fr1.out == fr.out
      && fr1.vars == SetVar(fr.vars, d, OperandValue(fr1, o))
      ==> Performs(f, params, Here(f, params, s1, fr1), loops, r, fin, fuel)
  }

  /** An expression evaluated for a statement, and what the statement then does with it. */
  lemma ExprThen(f: Func, params: seq<int>, st: Builder, fr: Frame, e: Option<int>, s1: Builder, o: Operand,
                 d: Option<Var>,
                 r: Source.Flow, loops: seq<Loop>, fin: Builder, fuel: nat)
    requires st.cur < |st.blocks| <= |f.blocks| && s1.cur < |s1.blocks| <= |f.blocks|
    requires fin.cur < |fin.blocks| <= |f.blocks|
    requires Reaches(f, params, st, fr, e, s1, o, d)
    requires e == None ==> r == Source.Trapped(fr.out)
    requires Resumes(f, params, s1, o, e, fr, d, loops, r, fin, fuel)
    ensures Performs(f, params, Here(f, params, st, fr), loops, r, fin, fuel)
  {
    var k: nat, fr1 :| Computes(f, params, st, fr, e, s1, o, d, k, fr1);
    match e
    case None =>
      assert Does(f, params, Here(f, params, st, fr), loops, r, fin, fuel, k, fr1);
    case Some(x) =>
      var j: nat, fr2 :| Does(f, params, Here(f, params, s1, fr1), loops, r, fin, fuel, j, fr2);
      RunFromSum(f, params, Here(f, params, st, fr), k, j);
      assert Does(f, params, Here(f, params, st, fr), loops, r, fin, fuel, k + j, fr2);
  }

  lemma BindRuns(f: Func, params: seq<int>, v: Var, e: Source.Expr, st: Builder, fr: Frame, fuel: nat)
    requires st.Ready() && Extends(f, BindLocal(LowerExpr(e, st).0, v, LowerExpr(e, st).1))
    ensures var r := match Source.Eval(e, fr.vars, params) case None => Source.Trapped(fr.out)
              case Some(x) => Source.Next(fr.vars[v := x], fr.out);
            Performs(f, params, Here(f, params, st, fr), st.loops, r,
                     BindLocal(LowerExpr(e, st).0, v, LowerExpr(e, st).1), fuel)
  {
    hide BindLocal, LowerExpr, Source.Eval;
    var (s1, o) := LowerExpr(e, st);
    var fin := BindLocal(s1, v, o);
    var val := Source.Eval(e, fr.vars, params);
    var r := match val case None => Source.Trapped(fr.out) case Some(x) => Source.Next(fr.vars[v := x], fr.out);
    ExprGrows(e, st);
    var d := if o.Value? then Some(v) else None;
    BindBack(f, s1, v, o);
    ExprRuns(f, params, e, st, fr, d);
    forall fr1: Frame | val == Some(OperandValue(fr1, o)) && fr1.out == fr.out
      && fr1.vars == SetVar(fr.vars, d, OperandValue(fr1, o))
      ensures Performs(f, params, Here(f, params, s1, fr1), st.loops, r, fin, fuel)
    {
      BindEnds(f, params, s1, v, o, fr, fr1, st.loops, fuel);
    }
    ExprThen(f, params, st, fr, val, s1, o, d, r, st.loops, fin, fuel);
  }

  lemma BindBack(f: Func, s1: Builder, v: Var, o: Operand)
    requires s1.Ready() && Extends(f, BindLocal(s1, v, o))
    ensures Extends(f, Marked(s1, if o.Value? then Some(v) else None))
    ensures o.VarRef? ==> |s1.Code()| < |f.blocks[s1.cur].code| && f.blocks[s1.cur].code[|s1.Code()|] == Bind(o, v)
    ensures BindLocal(s1, v, o).Ready()
  {
    var fin := BindLocal(s1, v, o);
    var m := Marked(s1, if o.Value? then Some(v) else None);
    forall i: nat | i < |m.blocks| ensures FinishedAs(f, m.blocks[i], i) {
      assert FinishedAs(f, fin.blocks[i], i);
    }
    if o.VarRef? { assert fin.Code()[|s1.Code()|] == Bind(o, v); }
  }

  lemma BindEnds(f: Func, params: seq<int>, s1: Builder, v: Var, o: Operand, fr: Frame, fr1: Frame, loops: seq<Loop>,
                 fuel: nat)
    requires s1.Ready() && Extends(f, BindLocal(s1, v, o)) && fr1.out == fr.out
    requires fr1.vars == SetVar(fr.vars, if o.Value? then Some(v) else None, OperandValue(fr1, o))
    ensures var r := Source.Next(fr.vars[v := OperandValue(fr1, o)], fr.out);
            Performs(f, params, Here(f, params, s1, fr1), loops, r, BindLocal(s1, v, o), fuel)
  {
    BindBack(f, s1, v, o);
    var r := Source.Next(fr.vars[v := OperandValue(fr1, o)], fr.out);
    var fr2 := if o.Value? then fr1 else fr1.(vars := fr1.vars[v := OperandValue(fr1, o)]);
    assert Does(f, params, Here(f, params, s1, fr1), loops, r, BindLocal(s1, v, o), fuel, 0, fr2);
  }

  lemma PrintRuns(f: Func, params: seq<int>, e: Source.Expr, st: Builder, fr: Frame, fuel: nat)
    requires st.Ready() && Extends(f, Emit(LowerExpr(e, st).0, Hir.Print(LowerExpr(e, st).1)))
    ensures var r := match Source.Eval(e, fr.vars, params) case None => Source.Trapped(fr.out)
              case Some(x) => Source.Next(fr.vars, fr.out + [x]);
            Performs(f, params, Here(f, params, st, fr), st.loops, r,
                     Emit(LowerExpr(e, st).0, Hir.Print(LowerExpr(e, st).1)), fuel)
  {
    var (s1, o) := LowerExpr(e, st);
    var fin := Emit(s1, Hir.Print(o));
    var val := Source.Eval(e, fr.vars, params);
    var r := match val case None => Source.Trapped(fr.out) case Some(x) => Source.Next(fr.vars, fr.out + [x]);
    ExprGrows(e, st);
    EmitGrows(s1, Hir.Print(o));
    ExtendsBack(f, s1, fin);
    ExprRuns(f, params, e, st, fr, None);
    forall fr1: Frame | val == Some(OperandValue(fr1, o)) && fr1.out == fr.out
      && fr1.vars == SetVar(fr.vars, None, OperandValue(fr1, o))
      ensures Performs(f, params, Here(f, params, s1, fr1), st.loops, r, fin, fuel)
    {
      PrintEnds(f, params, s1, o, fr1, st.loops, fuel);
    }
    ExprThen(f, params, st, fr, val, s1, o, None, r, st.loops, fin, fuel);
  }

  lemma PrintEnds(f: Func, params: seq<int>, s1: Builder, o: Operand, fr1: Frame, loops: seq<Loop>, fuel: nat)
    requires s1.Ready() && Extends(f, Emit(s1, Hir.Print(o)))
    ensures Performs(f, params, Here(f, params, s1, fr1), loops,
                     Source.Next(fr1.vars, fr1.out + [OperandValue(fr1, o)]), Emit(s1, Hir.Print(o)), fuel)
  {
    var fin := Emit(s1, Hir.Print(o));
    assert fin.Code()[|s1.Code()|] == Hir.Print(o);
    var fr2 := fr1.(out := fr1.out + [OperandValue(fr1, o)]);
    assert Does(f, params, Here(f, params, s1, fr1), loops,
                Source.Next(fr1.vars, fr1.out + [OperandValue(fr1, o)]), fin, fuel, 0, fr2);
  }

  lemma ReturnRuns(f: Func, params: seq<int>, e: Source.Expr, st: Builder, fr: Frame, fuel: nat)
    requires st.Ready() && Extends(f, SetTerm(LowerExpr(e, st).0, Hir.Return(Some(LowerExpr(e, st).1))))
    ensures var r := match Source.Eval(e, fr.vars, params) case None => Source.Trapped(fr.out)
              case Some(x) => Source.Returned(x, fr.out);
            Performs(f, params, Here(f, params, st, fr), st.loops, r,
                     SetTerm(LowerExpr(e, st).0, Hir.Return(Some(LowerExpr(e, st).1))), fuel)
  {
    hide LowerExpr, Produce, OrRest;
    var (s1, o) := LowerExpr(e, st);
    var fin := SetTerm(s1, Hir.Return(Some(o)));
    var val := Source.Eval(e, fr.vars, params);
    var r := match val case None => Source.Trapped(fr.out) case Some(x) => Source.Returned(x, fr.out);
    ExprGrows(e, st);
    ReturnBack(f, s1, o);
    ExprRuns(f, params, e, st, fr, None);
    forall fr1: Frame | val == Some(OperandValue(fr1, o)) && fr1.out == fr.out
      && fr1.vars == SetVar(fr.vars, None, OperandValue(fr1, o))
      ensures Performs(f, params, Here(f, params, s1, fr1), st.loops, r, fin, fuel)
    {
      assert Does(f, params, Here(f, params, s1, fr1), st.loops, r, fin, fuel, 0, fr1);
    }
    ExprThen(f, params, st, fr, val, s1, o, None, r, st.loops, fin, fuel);
  }

  lemma ReturnBack(f: Func, s1: Builder, o: Operand)
    requires s1.Ready() && Extends(f, SetTerm(s1, Hir.Return(Some(o))))
    ensures Extends(f, s1) && IsBlock(f, s1.cur, s1.Code(), Hir.Return(Some(o)))
  {
    var fin := SetTerm(s1, Hir.Return(Some(o)));
    GrowsRefl(s1);
    FinishGrows(s1, s1, Hir.Return(Some(o)));
    ExtendsBack(f, s1, fin);
    assert FinishedAs(f, fin.blocks[s1.cur], s1.cur);
  }

  lemma ExprStmtRuns(f: Func, params: seq<int>, e: Source.Expr, st: Builder, fr: Frame, fuel: nat)
    requires st.Ready() && Extends(f, LowerExpr(e, st).0)
    ensures var r := match Source.Eval(e, fr.vars, params) case None => Source.Trapped(fr.out)
              case Some(x) => Source.Next(fr.vars, fr.out);
            Performs(f, params, Here(f, params, st, fr), st.loops, r, LowerExpr(e, st).0, fuel)
  {
    var (s1, o) := LowerExpr(e, st);
    var val := Source.Eval(e, fr.vars, params);
    var r := match val case None => Source.Trapped(fr.out) case Some(x) => Source.Next(fr.vars, fr.out);
    ExprGrows(e, st);
    ExprRuns(f, params, e, st, fr, None);
    forall fr1: Frame | val == Some(OperandValue(fr1, o)) && fr1.out == fr.out
      && fr1.vars == SetVar(fr.vars, None, OperandValue(fr1, o))
      ensures Performs(f, params, Here(f, params, s1, fr1), st.loops, r, s1, fuel)
    {
      assert Does(f, params, Here(f, params, s1, fr1), st.loops, r, s1, fuel, 0, fr1);
    }
    ExprThen(f, params, st, fr, val, s1, o, None, r, st.loops, s1, fuel);
  }

  /** break and continue. */
  lemma LeaveRuns(f: Func, params: seq<int>, s: Source.Stmt, st: Builder, fr: Frame, fuel: nat)
    requires st.Ready() && LoopsIn(st) && st.loops != [] && (s.Break? || s.Continue?)
    requires Extends(f, LowerStmt(s, st)) && HeadsPlain(f, st.loops)
    ensures Performs(f, params, Here(f, params, st, fr), st.loops, Source.Exec(s, fr.vars, fr.out, params, fuel),
                     LowerStmt(s, st), fuel)
  {
    var l := st.loops[|st.loops| - 1];
    var b := if s.Break? then l.breakTarget else l.continueTarget;
    var fin := JumpTo(st, b);
    JumpTouches(st, b);
    assert FinishedAs(f, fin.blocks[st.cur], st.cur);
    assert PlainAt(f, b);
    JumpRuns(f, params, st.cur, |st.Code()|, fr, b);
    assert Does(f, params, Here(f, params, st, fr), st.loops, Source.Exec(s, fr.vars, fr.out, params, fuel), fin,
                fuel, 0, fr);
  }

  // ----- going back from what an arm becomes to what it was -----

  /** b is a with its current block, unless already ended, ended as it is, and otherwise only with work on m. */
  lemma ArmBack(f: Func, a: Builder, b: Builder, m: nat)
    requires a.cur < |a.blocks| && Untouched(a, b, {a.cur, m}) && b.cur < |b.blocks|
    requires a.Ready() ==> b.blocks[a.cur].code == a.Code() && b.blocks[a.cur].term.Some?
    requires a.Terminated() ==> SameAt(a.blocks, b.blocks, a.cur)
    requires m != a.cur && m < |a.blocks| ==> a.blocks[m].term == None
    requires Extends(f, b)
    ensures Extends(f, a)
  {
    assert FinishedAs(f, b.blocks[a.cur], a.cur);
    forall i: nat | i < |a.blocks| ensures FinishedAs(f, a.blocks[i], i) {
      assert FinishedAs(f, b.blocks[i], i);
      if i != a.cur && i != m { assert SameAt(a.blocks, b.blocks, i); }
    }
  }

  /** Leaving an arm: control comes to block m, or has gone where the arm sent it. */
  lemma ArmLeaves(f: Func, params: seq<int>, s: State, loops: seq<Loop>, r: Source.Flow, a: Builder, m: nat,
                  fin: Builder, fuel: nat)
    requires a.cur < |a.blocks| <= |f.blocks| && fin.cur < |fin.blocks| <= |f.blocks|
    requires Performs(f, params, s, loops, r, a, fuel)
    requires a.Ready() ==> IsBlock(f, a.cur, a.Code(), Jump(m))
    requires fin.cur == m && fin.Ready() && fin.Code() == [] && PlainAt(f, m)
    ensures Performs(f, params, s, loops, r, fin, fuel)
  {
    var k: nat, fr :| Does(f, params, s, loops, r, a, fuel, k, fr);
    if r.Next? {
      JumpRuns(f, params, a.cur, |a.Code()|, fr, m);
      RunFromSum(f, params, s, k, 1);
      assert Does(f, params, s, loops, r, fin, fuel, k + 1, fr);
    } else {
      assert Does(f, params, s, loops, r, fin, fuel, k, fr);
    }
  }

  // ----- if -----

  /** What the finished graph looks like around an `if`. */
  ghost predicate IfShape(f: Func, p: IfStates)
    requires IfSteps(p)
  {
    var n := |p.before.blocks|;
    && Extends(f, p.ready) && Extends(f, p.inThen) && Extends(f, p.afterThen) && Extends(f, p.inElse)
    && Extends(f, p.afterElse) && Extends(f, p.done)
    && IsBlock(f, p.ready.cur, p.ready.Code(), Branch(p.cond, n, if p.hasElse then n + 2 else n + 1))
    && (p.afterThen.Ready() ==> IsBlock(f, p.afterThen.cur, p.afterThen.Code(), Jump(n + 1)))
    && (p.hasElse && p.afterElse.Ready() ==> IsBlock(f, p.afterElse.cur, p.afterElse.Code(), Jump(n + 1)))
    && p.inThen.Ready() && p.inThen.Code() == [] && p.inElse.Ready() && p.inElse.Code() == [] && p.done.Ready()
    && p.done.Code() == []
  }

  /** Going back over the end of an arm and then work on block m only. */
  lemma ArmDone(f: Func, a: Builder, t: nat, s: Builder, fin: Builder, m: nat)
    requires a.cur < |a.blocks| && t < |a.blocks| && s.blocks == JumpUnlessDone(a, t).blocks && m != a.cur
    requires Untouched(s, fin, {m}) && (m < |a.blocks| ==> a.blocks[m].term == None) && Extends(f, fin)
    ensures Extends(f, a) && (a.Ready() ==> IsBlock(f, a.cur, a.Code(), Jump(t)))
  {
    JumpUnlessDoneFacts(a, t);
    assert SameAt(s.blocks, fin.blocks, a.cur);
    UntouchedTrans(a, s, fin, {a.cur, m}, {m});
    ArmBack(f, a, fin, m);
    assert FinishedAs(f, fin.blocks[a.cur], a.cur);
  }

  lemma ElseBack(f: Func, p: IfStates)
    requires IfSteps(p) && p.hasElse && Extends(f, p.done)
    ensures Extends(f, p.afterElse) && Extends(f, p.inElse)
    ensures p.afterElse.Ready() ==> IsBlock(f, p.afterElse.cur, p.afterElse.Code(), Jump(|p.before.blocks| + 1))
  {
    IfReady(p);
    ArmDone(f, p.afterElse, |p.before.blocks| + 1, p.done, p.done, |p.afterElse.blocks|);
    ExtendsBack(f, p.inElse, p.afterElse);
  }

  lemma ThenBack(f: Func, p: IfStates)
    requires IfSteps(p) && Extends(f, p.done)
    ensures Extends(f, p.afterThen)
    ensures (p.afterThen.Ready() ==> IsBlock(f, p.afterThen.cur, p.afterThen.Code(), Jump(|p.before.blocks| + 1)))
  {
    hide JumpUnlessDone, ThenArm;
    var n := |p.before.blocks|;
    IfReady(p);
    if p.hasElse {
      JumpUnlessDoneFacts(p.afterElse, n + 1);
      UntouchedTrans(p.inElse, p.afterElse, p.done, {n + 2}, {p.afterElse.cur});
      assert p.afterThen.blocks[n + 2].term == None by { assert SameAt(p.inThen.blocks, p.afterThen.blocks, n + 2); }
      ArmDone(f, p.afterThen, n + 1, p.inElse, p.done, n + 2);
    } else {
      ArmDone(f, p.afterThen, n + 1, p.done, p.done, |p.afterThen.blocks|);
    }
  }

  lemma ConditionBack(f: Func, st: Builder, els: bool, s2: Builder, x: Operand, s3: Builder, a: Builder)
    requires st.Ready() && Grows(IfBlocks(els, st), s2) && s2.Ready() && s3 == ThenArm(els, s2, x, |st.blocks|)
    requires s3.Ready() && Grows(s3, a) && Extends(f, a)
    ensures Extends(f, s3) && Extends(f, s2)
    ensures IsBlock(f, s2.cur, s2.Code(), Branch(x, |st.blocks|, if els then |st.blocks| + 2 else |st.blocks| + 1))
  {
    ExtendsBack(f, s3, a);
    BranchTouches(s2, x, |st.blocks|, if els then |st.blocks| + 2 else |st.blocks| + 1);
    SplitBack(f, s2, s3);
    assert FinishedAs(f, s3.blocks[s2.cur], s2.cur);
  }

  lemma IfLooks(f: Func, p: IfStates)
    requires IfSteps(p) && Extends(f, p.done)
    ensures IfShape(f, p)
  {
    IfReady(p);
    ThenBack(f, p);
    if p.hasElse { ElseBack(f, p); }
    ConditionBack(f, p.before, p.hasElse, p.ready, p.cond, p.inThen, p.afterThen);
  }

  /** A branch into an arm that runs as it should and then comes to block m. */
  lemma ThroughArm(f: Func, params: seq<int>, from: Builder, x: Operand, t: nat, e: nat, arm: Builder, a: Builder,
                   m: nat, fin: Builder, fr: Frame, loops: seq<Loop>, r: Source.Flow, fuel: nat)
    requires from.cur < |from.blocks| <= |f.blocks| && IsBlock(f, from.cur, from.Code(), Branch(x, t, e))
    requires arm.cur == (if OperandValue(fr, x) != 0 then t else e) && PlainAt(f, arm.cur)
    requires arm.cur < |arm.blocks| <= |f.blocks| && arm.Code() == []
    requires a.cur < |a.blocks| <= |f.blocks| && (a.Ready() ==> IsBlock(f, a.cur, a.Code(), Jump(m)))
    requires Performs(f, params, Here(f, params, arm, fr), loops, r, a, fuel)
    requires fin.cur == m < |fin.blocks| <= |f.blocks| && fin.Ready() && fin.Code() == [] && PlainAt(f, m)
    ensures Performs(f, params, Here(f, params, from, fr), loops, r, fin, fuel)
  {
    ArmLeaves(f, params, Here(f, params, arm, fr), loops, r, a, m, fin, fuel);
    JumpRuns(f, params, from.cur, |from.Code()|, fr, arm.cur);
    PerformsLater(f, params, Here(f, params, from, fr), 1, Here(f, params, arm, fr), loops, r, fin, fuel, fuel);
  }

  /** The arms of an `if` run as they should, so the `if` does, from the end of its condition. */
  lemma IfFromCondition(f: Func, params: seq<int>, p: IfStates, fr: Frame, r: Source.Flow, fuel: nat)
    requires IfSteps(p) && IfShape(f, p) && p.done.cur == |p.before.blocks| + 1
    requires OperandValue(fr, p.cond) != 0 ==>
      Performs(f, params, Here(f, params, p.inThen, fr), p.before.loops, r, p.afterThen, fuel)
    requires OperandValue(fr, p.cond) == 0 && p.hasElse ==>
      Performs(f, params, Here(f, params, p.inElse, fr), p.before.loops, r, p.afterElse, fuel)
    requires OperandValue(fr, p.cond) == 0 && !p.hasElse ==> r == Source.Next(fr.vars, fr.out)
    ensures Performs(f, params, Here(f, params, p.ready, fr), p.before.loops, r, p.done, fuel)
  {
    hide JumpUnlessDone, Grows;
    var n := |p.before.blocks|;
    var e := if p.hasElse then n + 2 else n + 1;
    assert PlainAt(f, n) && PlainAt(f, n + 1) && PlainAt(f, e);
    if OperandValue(fr, p.cond) != 0 {
      ThroughArm(f, params, p.ready, p.cond, n, e, p.inThen, p.afterThen, n + 1, p.done, fr, p.before.loops, r, fuel);
    } else if p.hasElse {
      ThroughArm(f, params, p.ready, p.cond, n, e, p.inElse, p.afterElse, n + 1, p.done, fr, p.before.loops, r, fuel);
    } else {
      JumpRuns(f, params, p.ready.cur, |p.ready.Code()|, fr, n + 1);
      assert Does(f, params, Here(f, params, p.ready, fr), p.before.loops, r, p.done, fuel, 1, fr);
    }
  }

  // ----- while -----

  ghost predicate WhileShape(f: Func, p: WhileStates)
    requires WhileSteps(p)
  {
    var n := |p.before.blocks|;
    && Extends(f, p.inCond) && Extends(f, p.ready) && Extends(f, p.inBody) && Extends(f, p.afterBody)
    && Extends(f, p.done)
    && IsBlock(f, p.before.cur, p.before.Code(), Jump(n))
    && IsBlock(f, p.ready.cur, p.ready.Code(), Branch(p.cond, n + 1, n + 2))
    && (p.afterBody.Ready() ==> IsBlock(f, p.afterBody.cur, p.afterBody.Code(), Jump(n)))
    && p.inCond.Ready() && p.inCond.Code() == [] && p.inCond.cur == n && p.inBody.Ready() && p.inBody.Code() == []
    && p.inBody.cur == n + 1
    && p.done.Ready() && p.done.Code() == [] && p.done.cur == n + 2
    && p.inBody.loops == p.before.loops + [Loop(n, n + 2)]
  }

  lemma WhileLooks(f: Func, p: WhileStates)
    requires WhileSteps(p) && Extends(f, p.done)
    ensures WhileShape(f, p)
  {
    var n := |p.before.blocks|;
    WhileReady(p);
    ArmDone(f, p.afterBody, n, p.done, p.done, |p.afterBody.blocks|);
    ExtendsBack(f, p.inBody, p.afterBody);
    BodyBack(f, p.ready, p.cond, n, p.inBody);
    ExtendsBack(f, p.inCond, p.ready);
    EntryBack(f, p.before, p.inCond);
  }

  lemma BodyBack(f: Func, s2: Builder, x: Operand, n: nat, s3: Builder)
    requires s2.Ready() && n + 2 < |s2.blocks| && s3 == WhileBody(s2, x, n) && s3.Ready() && Extends(f, s3)
    ensures Extends(f, s2) && IsBlock(f, s2.cur, s2.Code(), Branch(x, n + 1, n + 2))
  {
    BranchTouches(s2, x, n + 1, n + 2);
    SplitBack(f, s2, s3);
    assert FinishedAs(f, s3.blocks[s2.cur], s2.cur);
  }

  lemma EntryBack(f: Func, st: Builder, s1: Builder)
    requires st.Ready() && s1 == WhileBlocks(st) && Extends(f, s1)
    ensures IsBlock(f, st.cur, st.Code(), Jump(|st.blocks|))
  {
    WhileBlocksFacts(st);
    assert FinishedAs(f, s1.blocks[st.cur], st.cur);
  }

  /** What running a loop needs to know of the graph around it: its condition, body and exit blocks are n,
      n + 1 and n + 2. */
  ghost predicate LoopLooks(f: Func, p: WhileStates) {
    var n := p.Head();
    && p.inCond.cur == n < |p.inCond.blocks| <= |f.blocks| && p.inCond.Code() == []
    && p.ready.cur < |p.ready.blocks| <= |f.blocks|
    && IsBlock(f, p.ready.cur, p.ready.Code(), Branch(p.cond, n + 1, n + 2))
    && p.inBody.cur == n + 1 < |p.inBody.blocks| <= |f.blocks| && p.inBody.Code() == []
    && p.inBody.loops == p.before.loops + [Loop(n, n + 2)]
    && p.afterBody.cur < |p.afterBody.blocks| <= |f.blocks|
    && (p.afterBody.Ready() ==> IsBlock(f, p.afterBody.cur, p.afterBody.Code(), Jump(n)))
    && p.done.cur == n + 2 < |p.done.blocks| <= |f.blocks| && p.done.Ready() && p.done.Code() == []
    && PlainAt(f, n) && PlainAt(f, n + 1) && PlainAt(f, n + 2)
  }

  /** What a loop does that its body leaves. */
  function Left(body: Source.Flow): Source.Flow {
    if body.Broke? then Source.Next(body.vars, body.out) else body
  }

  /** The end of the body: control is back at the condition, or out of the loop. */
  lemma BodyTail(f: Func, params: seq<int>, p: WhileStates, s: State, body: Source.Flow, fuel: nat)
    returns (k: nat, fr: Frame)
    requires LoopLooks(f, p) && Performs(f, params, s, p.inBody.loops, body, p.afterBody, fuel)
    ensures if body.Next? || body.Continued? then
              RunFrom(f, params, s, k) == At(p.Head(), fr) && fr.vars == body.vars && fr.out == body.out
            else
              Performs(f, params, s, p.before.loops, Left(body), p.done, fuel)
  {
    k, fr :| Does(f, params, s, p.inBody.loops, body, p.afterBody, fuel, k, fr);
    match body
    case Next(v, o) => JumpRuns(f, params, p.afterBody.cur, |p.afterBody.Code()|, fr, p.Head());
    case Continued(v, o) =>
    case Broke(v, o) =>
      StepIsAfter(f, params, p.Head() + 2, fr);
      RunFromSum(f, params, s, k, 1);
      assert Does(f, params, s, p.before.loops, Source.Next(v, o), p.done, fuel, k + 1, fr);
    case _ =>
      assert Does(f, params, s, p.before.loops, body, p.done, fuel, k, fr);
  }

  /** The start of an iteration: a trap, the end of the loop, or control at the body. */
  lemma LoopHead(f: Func, params: seq<int>, p: WhileStates, fr: Frame, val: Option<int>, fuel: nat)
    returns (k: nat, fr1: Frame)
    requires LoopLooks(f, p) && Reaches(f, params, p.inCond, fr, val, p.ready, p.cond, None)
    ensures match val
            case None => Performs(f, params, At(p.Head(), fr), p.before.loops, Source.Trapped(fr.out), p.done, fuel)
            case Some(v) =>
              if v == 0 then
                Performs(f, params, At(p.Head(), fr), p.before.loops, Source.Next(fr.vars, fr.out), p.done, fuel)
              else
                && k > 0 && RunFrom(f, params, At(p.Head(), fr), k) == Here(f, params, p.inBody, fr1)
                && fr1.vars == fr.vars && fr1.out == fr.out
  {
    k, fr1 := ConditionRuns(f, params, p.Head(), p.inCond, fr, val, p.ready, p.cond);
    match val
    case None =>
      assert Does(f, params, At(p.Head(), fr), p.before.loops, Source.Trapped(fr.out), p.done, fuel, k, fr1);
    case Some(v) =>
      JumpRuns(f, params, p.ready.cur, |p.ready.Code()|, fr1, if v != 0 then p.Head() + 1 else p.Head() + 2);
      RunFromSum(f, params, At(p.Head(), fr), k, 1);
      k := k + 1;
      if v == 0 {
        assert Does(f, params, At(p.Head(), fr), p.before.loops, Source.Next(fr.vars, fr.out), p.done, fuel, k, fr1);
      }
  }

  lemma ConditionRuns(f: Func, params: seq<int>, n: nat, s1: Builder, fr: Frame, val: Option<int>, s2: Builder,
                      x: Operand)
    returns (k: nat, fr1: Frame)
    requires s1.cur == n < |s1.blocks| <= |f.blocks| && s1.Code() == [] && s2.cur < |s2.blocks| <= |f.blocks|
    requires Reaches(f, params, s1, fr, val, s2, x, None)
    ensures match val
            case None => RunFrom(f, params, At(n, fr), k) == Stopped(Trapped, fr.out)
            case Some(v) =>
              && RunFrom(f, params, At(n, fr), k) == Here(f, params, s2, fr1)
              && OperandValue(fr1, x) == v && fr1.vars == fr.vars && fr1.out == fr.out
  {
    hide OperandValue, PhiFree;
    StepIsAfter(f, params, n, fr);
    k, fr1 :| Computes(f, params, s1, fr, val, s2, x, None, k, fr1);
    RunFromSum(f, params, At(n, fr), 1, k);
    k := 1 + k;
  }

  // ----- all statements -----

  /** s, lowered from st, is part of the finished graph. */
  ghost predicate Lowers(f: Func, s: Source.Stmt, st: Builder) {
    && st.Ready() && LoopsIn(st) && Accepted(s, st.loops != [])
    && HeadsPlain(f, st.loops) && Extends(f, LowerStmt(s, st))
  }

  lemma {:induction false} StmtRuns(f: Func, params: seq<int>, s: Source.Stmt, st: Builder, fr: Frame, fuel: nat)
    requires Lowers(f, s, st)
    ensures |st.blocks| <= |f.blocks|
    ensures Performs(f, params, Here(f, params, st, fr), st.loops, Source.Exec(s, fr.vars, fr.out, params, fuel),
                     LowerStmt(s, st), fuel)
    decreases fuel, s, 2
  {
    match s
    case Let(v, e) => BindRuns(f, params, v, e, st, fr, fuel);
    case Assign(v, e) => BindRuns(f, params, v, e, st, fr, fuel);
    case Print(e) => PrintRuns(f, params, e, st, fr, fuel);
    case ExprStmt(e) => ExprStmtRuns(f, params, e, st, fr, fuel);
    case If(c, t, els) => IfRuns(f, params, c, t, els, st, fr, fuel);
    case While(c, b) => WhileRuns(f, params, c, b, st, fr, fuel);
    case Block(ss) => AllRuns(f, params, ss, st, fr, fuel);
    case Break => LeaveRuns(f, params, s, st, fr, fuel);
    case Continue => LeaveRuns(f, params, s, st, fr, fuel);
    case Return(e) => ReturnRuns(f, params, e, st, fr, fuel);
  }

  lemma {:induction false} IfRuns(f: Func, params: seq<int>, c: Source.Expr, t: Source.Stmt,
                                  els: Option<Source.Stmt>, st: Builder, fr: Frame, fuel: nat)
    requires Lowers(f, Source.If(c, t, els), st)
    ensures |st.blocks| <= |f.blocks|
    ensures Performs(f, params, Here(f, params, st, fr), st.loops,
                     Source.Exec(Source.If(c, t, els), fr.vars, fr.out, params, fuel),
                     LowerIf(c, t, els, st), fuel)
    decreases fuel, Source.If(c, t, els), 1
  {
    hide LowerExpr, ThenStart, Does, LowerIf, Computes, IfShape, Grows, Performs, OrRest, LowerElse, IfSteps, Resumes;
    var p := IfIsSteps(c, t, els, st);
    IfLooks(f, p);
    IfReady(p);
    IfBlocksFacts(els.Some?, st);
    var r := Source.Exec(Source.If(c, t, els), fr.vars, fr.out, params, fuel);
    var val := Source.Eval(c, fr.vars, params);
    ExprRuns(f, params, c, IfBlocks(els.Some?, st), fr, None);
    forall fr1: Frame | val == Some(OperandValue(fr1, p.cond)) && fr1.out == fr.out
      && fr1.vars == SetVar(fr.vars, None, OperandValue(fr1, p.cond))
      ensures Performs(f, params, Here(f, params, p.ready, fr1), st.loops, r, p.done, fuel)
    {
      if OperandValue(fr1, p.cond) != 0 {
        StmtRuns(f, params, t, p.inThen, fr1, fuel);
      } else if els.Some? {
        StmtRuns(f, params, els.value, p.inElse, fr1, fuel);
      }
      IfFromCondition(f, params, p, fr1, r, fuel);
    }
    ExprThen(f, params, IfBlocks(els.Some?, st), fr, val, p.ready, p.cond, None, r, st.loops, p.done, fuel);
  }

  lemma {:induction false} AllRuns(f: Func, params: seq<int>, ss: seq<Source.Stmt>, st: Builder, fr: Frame, fuel: nat)
    requires st.Ready() && LoopsIn(st) && AllAccepted(ss, st.loops != [])
    requires HeadsPlain(f, st.loops) && Extends(f, LowerAll(ss, st))
    ensures |st.blocks| <= |f.blocks|
    ensures Performs(f, params, Here(f, params, st, fr), st.loops,
                     Source.ExecAll(ss, fr.vars, fr.out, params, fuel), LowerAll(ss, st), fuel)
    decreases fuel, ss, 1
  {
    if ss == [] {
      assert Does(f, params, Here(f, params, st, fr), st.loops, Source.Next(fr.vars, fr.out), st, fuel, 0, fr);
    } else {
      var s1 := LowerStmt(ss[0], st);
      var r := Source.Exec(ss[0], fr.vars, fr.out, params, fuel);
      StmtGrows(ss[0], st);
      if s1.Ready() {
        AllGrows(ss[1..], s1);
        ExtendsBack(f, s1, LowerAll(ss[1..], s1));
      } else {
        assert LowerAll(ss[1..], s1) == s1;
      }
      StmtRuns(f, params, ss[0], st, fr, fuel);
      var k: nat, fr1 :| Does(f, params, Here(f, params, st, fr), st.loops, r, s1, fuel, k, fr1);
      if r.Next? {
        EndsIs(ss[0], st);
        AllRuns(f, params, ss[1..], s1, fr1, fuel);
        PerformsLater(f, params, Here(f, params, st, fr), k, Here(f, params, s1, fr1), st.loops,
                      Source.ExecAll(ss[1..], fr1.vars, fr1.out, params, fuel), LowerAll(ss, st), fuel, fuel);
      } else {
        assert Does(f, params, Here(f, params, st, fr), st.loops, r, LowerAll(ss, st), fuel, k, fr1);
      }
    }
  }

  /** The states a loop passes through, and what they look like in the finished graph. */
  lemma LoopStates(f: Func, c: Source.Expr, b: Source.Stmt, st: Builder) returns (p: WhileStates)
    requires Lowers(f, Source.While(c, b), st)
    ensures p.before == st && LoopLooks(f, p)
    ensures p.inCond.Ready() && (p.ready, p.cond) == LowerExpr(c, p.inCond) && Extends(f, p.ready)
    ensures p.inBody == WhileStart(c, st) && Lowers(f, b, p.inBody)
    ensures p.afterBody == LowerStmt(b, p.inBody) && p.done == LowerWhile(c, b, st)
  {
    hide LowerExpr, SetTerm, Grows;
    p := WhileIsSteps(c, b, st);
    WhileLooks(f, p);
    BodyLowers(f, b, p);
  }

  lemma {:induction false} WhileRuns(f: Func, params: seq<int>, c: Source.Expr, b: Source.Stmt, st: Builder,
                                     fr: Frame, fuel: nat)
    requires Lowers(f, Source.While(c, b), st)
    ensures |st.blocks| <= |f.blocks|
    ensures Performs(f, params, Here(f, params, st, fr), st.loops,
                     Source.Exec(Source.While(c, b), fr.vars, fr.out, params, fuel),
                     LowerWhile(c, b, st), fuel)
    decreases fuel, Source.While(c, b), 1
  {
    hide LowerExpr, WhileBody, OrRest;
    var p := WhileIsSteps(c, b, st);
    WhileLooks(f, p);
    JumpRuns(f, params, st.cur, |st.Code()|, fr, |st.blocks|);
    LoopRuns(f, params, c, b, st, fr, fuel);
  }

  lemma BodyLowers(f: Func, b: Source.Stmt, p: WhileStates)
    requires WhileSteps(p) && WhileShape(f, p)
    requires LoopsIn(p.inBody) && p.afterBody == LowerStmt(b, p.inBody) && Accepted(b, true)
    requires HeadsPlain(f, p.before.loops)
    ensures Lowers(f, b, p.inBody) && LoopLooks(f, p)
  {
    hide WhileSteps, LowerStmt, Grows;
    var n := |p.before.blocks|;
    assert PlainAt(f, n) && PlainAt(f, n + 2);
    forall i | 0 <= i < |p.inBody.loops|
      ensures PlainAt(f, p.inBody.loops[i].breakTarget) && PlainAt(f, p.inBody.loops[i].continueTarget)
    {
      if i < |p.before.loops| { assert p.inBody.loops[i] == p.before.loops[i]; }
    }
  }

  /** The loop, from the start of its condition. */
  lemma {:induction false} LoopRuns(f: Func, params: seq<int>, c: Source.Expr, b: Source.Stmt, st: Builder,
                                    fr: Frame, fuel: nat)
    requires Lowers(f, Source.While(c, b), st)
    ensures |LowerWhile(c, b, st).blocks| <= |f.blocks|
    ensures Performs(f, params, At(|st.blocks|, fr), st.loops,
                     Source.Exec(Source.While(c, b), fr.vars, fr.out, params, fuel),
                     LowerWhile(c, b, st), fuel)
    decreases fuel, Source.While(c, b), 0
  {
    hide LowerExpr, WhileStart, Source.AfterBody;
    assert Extends(f, LowerWhile(c, b, st));
    if fuel == 0 {
      NoFuel(f, params, |st.blocks|, st.loops, LowerWhile(c, b, st), fr);
    } else {
      LoopUnfolds(c, b, fr.vars, fr.out, params, fuel);
      var val := Source.Eval(c, fr.vars, params);
      var k, fr1 := HeadRuns(f, params, c, b, st, fr, val, fuel);
      if val.Some? && val.value != 0 {
        BodyAndRest(f, params, c, b, st, fr1, fuel);
        PerformsLater(f, params, At(|st.blocks|, fr), k, Here(f, params, WhileStart(c, st), fr1), st.loops,
                      Source.AfterBody(Source.Exec(b, fr.vars, fr.out, params, fuel - 1), Source.While(c, b),
                                       params, fuel),
                      LowerWhile(c, b, st), fuel - 1, fuel);
      }
    }
  }

  lemma HeadRuns(f: Func, params: seq<int>, c: Source.Expr, b: Source.Stmt, st: Builder, fr: Frame, val: Option<int>,
                 fuel: nat)
    returns (k: nat, fr1: Frame)
    requires Lowers(f, Source.While(c, b), st) && val == Source.Eval(c, fr.vars, params)
    ensures |LowerWhile(c, b, st).blocks| <= |f.blocks| && |WhileStart(c, st).blocks| <= |f.blocks|
    ensures match val
            case None => Performs(f, params, At(|st.blocks|, fr), st.loops, Source.Trapped(fr.out),
                                  LowerWhile(c, b, st), fuel)
            case Some(v) =>
              if v == 0 then Performs(f, params, At(|st.blocks|, fr), st.loops, Source.Next(fr.vars, fr.out),
                                      LowerWhile(c, b, st), fuel)
              else && k > 0 && RunFrom(f, params, At(|st.blocks|, fr), k) == Here(f, params, WhileStart(c, st), fr1)
                   && fr1.vars == fr.vars && fr1.out == fr.out
  {
    var p := LoopStates(f, c, b, st);
    ExprRuns(f, params, c, p.inCond, fr, None);
    k, fr1 := LoopHead(f, params, p, fr, val, fuel);
  }

  lemma NoFuel(f: Func, params: seq<int>, n: nat, loops: seq<Loop>, fin: Builder, fr: Frame)
    requires fin.cur < |fin.blocks| <= |f.blocks|
    ensures Performs(f, params, At(n, fr), loops, Source.OutOfFuel(fr.out), fin, 0)
  {
    assert Does(f, params, At(n, fr), loops, Source.OutOfFuel(fr.out), fin, 0, 0, fr);
  }

  lemma LoopUnfolds(c: Source.Expr, b: Source.Stmt, vars: Source.Vars, out: seq<int>, params: seq<int>, fuel: nat)
    requires fuel > 0
    ensures Source.Exec(Source.While(c, b), vars, out, params, fuel)
         == match Source.Eval(c, vars, params)
            case None => Source.Trapped(out)
            case Some(x) =>
              if x == 0 then Source.Next(vars, out)
              else Source.AfterBody(Source.Exec(b, vars, out, params, fuel - 1), Source.While(c, b), params, fuel)
  {
  }

  lemma BodyLeaves(body: Source.Flow, loop: Source.Stmt, params: seq<int>, fuel: nat)
    requires fuel > 0
    ensures Source.AfterBody(body, loop, params, fuel)
         == if body.Next? || body.Continued? then Source.Exec(loop, body.vars, body.out, params, fuel - 1)
            else if body.Broke? then Source.Next(body.vars, body.out) else body
  {
  }

  /** The body of the loop, and the iterations after it. */
  lemma {:induction false} BodyAndRest(f: Func, params: seq<int>, c: Source.Expr, b: Source.Stmt, st: Builder,
                                       fr: Frame, fuel: nat)
    requires Lowers(f, Source.While(c, b), st) && fuel > 0
    ensures |WhileStart(c, st).blocks| <= |f.blocks| && |LowerWhile(c, b, st).blocks| <= |f.blocks|
    ensures var body := Source.Exec(b, fr.vars, fr.out, params, fuel - 1);
            Performs(f, params, Here(f, params, WhileStart(c, st), fr), st.loops,
                     Source.AfterBody(body, Source.While(c, b), params, fuel),
                     LowerWhile(c, b, st), fuel - 1)
    decreases fuel - 1, Source.While(c, b), 2
  {
    hide LowerStmt, LowerExpr, LowerWhile, WhileStart;
    LoopBodyLowers(f, c, b, st);
    StmtRuns(f, params, b, WhileStart(c, st), fr, fuel - 1);
    RestRuns(f, params, c, b, st, fr, Source.Exec(b, fr.vars, fr.out, params, fuel - 1), fuel);
  }

  /** The iterations after a body that has run as the flow says. */
  lemma {:induction false} RestRuns(f: Func, params: seq<int>, c: Source.Expr, b: Source.Stmt, st: Builder,
                                    fr: Frame, body: Source.Flow, fuel: nat)
    requires Lowers(f, Source.While(c, b), st) && Lowers(f, b, WhileStart(c, st)) && fuel > 0
    requires Performs(f, params, Here(f, params, WhileStart(c, st), fr), WhileStart(c, st).loops, body,
                      LowerStmt(b, WhileStart(c, st)), fuel - 1)
    ensures |LowerWhile(c, b, st).blocks| <= |f.blocks|
    ensures Performs(f, params, Here(f, params, WhileStart(c, st), fr), st.loops,
                     Source.AfterBody(body, Source.While(c, b), params, fuel),
                     LowerWhile(c, b, st), fuel - 1)
    decreases fuel - 1, Source.While(c, b), 1
  {
    hide LowerExpr, LowerStmt, LowerWhile, WhileStart, Source.Exec;
    BodyLeaves(body, Source.While(c, b), params, fuel);
    var k, fr1 := TailRuns(f, params, c, b, st, fr, body, fuel - 1);
    if body.Next? || body.Continued? {
      LoopRuns(f, params, c, b, st, fr1, fuel - 1);
      PerformsLater(f, params, Here(f, params, WhileStart(c, st), fr), k, At(|st.blocks|, fr1), st.loops,
                    Source.Exec(Source.While(c, b), body.vars, body.out, params, fuel - 1), LowerWhile(c, b, st),
                                fuel - 1, fuel - 1);
    }
  }

  lemma LoopBodyLowers(f: Func, c: Source.Expr, b: Source.Stmt, st: Builder)
    requires Lowers(f, Source.While(c, b), st)
    ensures Lowers(f, b, WhileStart(c, st))
  {
    var p := LoopStates(f, c, b, st);
  }

  lemma TailRuns(f: Func, params: seq<int>, c: Source.Expr, b: Source.Stmt, st: Builder, fr: Frame,
                 body: Source.Flow, fuel: nat)
    returns (k: nat, fr1: Frame)
    requires Lowers(f, Source.While(c, b), st) && Lowers(f, b, WhileStart(c, st))
    requires Performs(f, params, Here(f, params, WhileStart(c, st), fr), WhileStart(c, st).loops, body,
                      LowerStmt(b, WhileStart(c, st)), fuel)
    ensures |LowerWhile(c, b, st).blocks| <= |f.blocks|
    ensures var s := Here(f, params, WhileStart(c, st), fr);
            if body.Next? || body.Continued? then
              RunFrom(f, params, s, k) == At(|st.blocks|, fr1) && fr1.vars == body.vars && fr1.out == body.out
            else
              Performs(f, params, s, st.loops, Left(body), LowerWhile(c, b, st), fuel)
  {
    var p := LoopStates(f, c, b, st);
    k, fr1 := BodyTail(f, params, p, Here(f, params, p.inBody, fr), body, fuel);
  }

  // ----- whole functions -----

  lemma {:induction false} ParamsCode(names: seq<Var>, n: nat)
    requires n <= |names|
    ensures var st := LowerParams(names, n);
            && st.Ready() && |st.Code()| == n == st.nextId
            && forall i :: 0 <= i < n ==> st.Code()[i] == Compute(Param(i), i, [], Some(names[i]))
  {
    if n > 0 { ParamsCode(names, n - 1); }
  }

  /** The first n instructions of the entry block store the arguments. */
  lemma {:induction false} ParamsRun(f: Func, names: seq<Var>, args: seq<int>, n: nat) returns (fr: Frame)
    requires n <= |names| && |f.blocks| > 0 && |names| <= |f.blocks[0].code|
    requires forall i :: 0 <= i < |names| ==> f.blocks[0].code[i] == Compute(Param(i), i, [], Some(names[i]))
    ensures After(f, args, 0, 0, START) == After(f, args, 0, n, fr)
    ensures fr.vars == Source.Arguments(names, args, n) && fr.out == []
  {
    if n == 0 {
      fr := START;
    } else {
      var before := ParamsRun(f, names, args, n - 1);
      fr := Write(before, n - 1, Some(names[n - 1]), if n - 1 < |args| then args[n - 1] else 0);
      assert Rest(f.blocks[0].code, n - 1, before, args) == Rest(f.blocks[0].code, n, fr, args);
    }
  }

  /** How a call of the function ends, as a state of the graph. */
  function EndOf(r: Source.Flow): State
    requires !r.OutOfFuel?
  {
    match r
    case Returned(x, o) => Stopped(Returned(Some(x)), o)
    case Trapped(o) => Stopped(Trapped, o)
    case _ => Stopped(Returned(None), r.out)
  }

  lemma FinishedExtends(st: Builder)
    requires st.cur < |st.blocks|
    ensures Extends(Finished(st), st)
  {
    var f := Finished(st);
    forall i: nat | i < |st.blocks| ensures FinishedAs(f, st.blocks[i], i) {
      assert f.blocks[i] == FinishedBlock(st.blocks[i]);
    }
  }

  /** After n blocks the graph is in state s: it has ended as the flow r did, or, r being out of fuel, is
      still going after that many blocks and has printed the same. */
  ghost predicate Follows(r: Source.Flow, s: State, n: nat, fuel: nat) {
    if r.OutOfFuel? then n >= fuel && s.At? && s.frame.out == r.out else s == EndOf(r)
  }

  /** Running the graph of a function follows the source: when the source ends within some fuel, the graph
      ends the same way; while it has not ended, the graph has not either, and has printed the same. */
  lemma FunctionRuns(fn: Source.Function, args: seq<int>, fuel: nat) returns (n: nat)
    requires Accepted(fn.body, false)
    ensures Follows(Source.Call(fn, args, fuel), Run(LowerFunction(fn), args, n), n, fuel)
  {
    hide LowerStmt;
    var fr, k := BodyRuns(fn, args, fuel);
    var f := LowerFunction(fn);
    RunFromSum(f, args, At(0, START), 1, k);
    n := 1 + k;
    RunFromStart(f, args, n);
  }

  lemma BodyRuns(fn: Source.Function, args: seq<int>, fuel: nat) returns (fr: Frame, k: nat)
    requires Accepted(fn.body, false)
    ensures var f := LowerFunction(fn);
            Follows(Source.Call(fn, args, fuel), RunFrom(f, args, RunFrom(f, args, At(0, START), 1), k), k, fuel)
  {
    var st := LowerParams(fn.params, |fn.params|);
    var f := LowerFunction(fn);
    fr := FunctionStarts(fn, args);
    StmtRuns(f, args, fn.body, st, fr, fuel);
    k := FlowEnds(f, args, Here(f, args, st, fr), Source.Call(fn, args, fuel), LowerStmt(fn.body, st), fuel);
  }

  lemma FlowEnds(f: Func, args: seq<int>, s: State, r: Source.Flow, fin: Builder, fuel: nat) returns (k: nat)
    requires fin.cur < |fin.blocks| && f == Finished(fin) && Performs(f, args, s, [], r, fin, fuel)
    ensures Follows(r, RunFrom(f, args, s, k), k, fuel)
  {
    var j: nat, fr :| Does(f, args, s, [], r, fin, fuel, j, fr);
    k := j;
    if r.Next? { FallsOff(f, args, fin, fr); }
  }

  lemma FunctionStarts(fn: Source.Function, args: seq<int>) returns (fr: Frame)
    requires Accepted(fn.body, false)
    ensures var st := LowerParams(fn.params, |fn.params|);
            var f := LowerFunction(fn);
            && Lowers(f, fn.body, st) && |st.blocks| <= |f.blocks| && |LowerStmt(fn.body, st).blocks| <= |f.blocks|
            && RunFrom(f, args, At(0, START), 1) == Here(f, args, st, fr)
    ensures fr.vars == Source.Arguments(fn.params, args, |fn.params|) && fr.out == []
  {
    var st := LowerParams(fn.params, |fn.params|);
    var fin := LowerStmt(fn.body, st);
    var f := LowerFunction(fn);
    ParamsCode(fn.params, |fn.params|);
    StmtGrows(fn.body, st);
    FinishedExtends(fin);
    ExtendsBack(f, st, fin);
    fr := ParamsRun(f, fn.params, args, |fn.params|);
    StepIsAfter(f, args, 0, START);
  }

  /** A function that falls off its end returns nothing. */
  lemma FallsOff(f: Func, args: seq<int>, fin: Builder, fr: Frame)
    requires fin.Ready() && f == Finished(fin)
    ensures Here(f, args, fin, fr) == Stopped(Returned(None), fr.out)
  {
    assert f.blocks[fin.cur] == FinishedBlock(fin.blocks[fin.cur]);
  }

  /** And the other way: when the graph has stopped, the source ends that way. */
  lemma FunctionEnds(fn: Source.Function, args: seq<int>, n: nat)
    requires Accepted(fn.body, false) && Run(LowerFunction(fn), args, n).Stopped?
    ensures var r := Source.Call(fn, args, n);
            !r.OutOfFuel? && Run(LowerFunction(fn), args, n) == EndOf(r)
  {
    var m := FunctionRuns(fn, args, n);
    StoppedStays(LowerFunction(fn), args, if Run(LowerFunction(fn), args, m).Stopped? && m < n then m else n,
                 if n <= m then m else n);
  }
}
