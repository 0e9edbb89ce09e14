/** Which edges lowering adds: into its own blocks, and to the targets of the loops around it. */
module LoweringEdges {
  import opened Wrappers
  import opened Hir
  import opened Lowering
  import opened LoweringGrowth
  import opened LoweringShape
  import opened LoweringSteps
  import Source

  // ----- edges added on the way -----

  predicate IsTarget(loops: seq<Loop>, b: nat) {
    exists i :: 0 <= i < |loops| && (loops[i].continueTarget == b || loops[i].breakTarget == b)
  }

  ghost predicate PredsAt(a: Builder, b: Builder, i: nat) {
    i < |a.blocks| && i < |b.blocks| && b.blocks[i].preds == a.blocks[i].preds
  }

  ghost predicate MorePreds(a: Builder, b: Builder, i: nat) {
    i < |a.blocks| && i < |b.blocks| && |a.blocks[i].preds| <= |b.blocks[i].preds|
  }

  /** Only the targets of enclosing loops get new predecessors, and every new block is started. */
  ghost predicate Fills(a: Builder, b: Builder) {
    && |a.blocks| <= |b.blocks|
    && (forall i: nat :: i < |a.blocks| && !IsTarget(a.loops, i) ==> PredsAt(a, b, i))
    && (forall i: nat :: i < |a.blocks| ==> MorePreds(a, b, i))
    && (forall i: nat :: |a.blocks| <= i < |b.blocks| ==> Started(b, i))
  }

  lemma FillsTrans(a: Builder, b: Builder, c: Builder)
    requires a.Ready() && b.Ready() && Fills(a, b) && Fills(b, c) && Grows(b, c) && b.loops == a.loops
    ensures Fills(a, c)
  {
    forall i: nat | i < |a.blocks| && !IsTarget(a.loops, i) ensures PredsAt(a, c, i) {
      assert PredsAt(a, b, i) && PredsAt(b, c, i);
    }
    forall i: nat | i < |a.blocks| ensures MorePreds(a, c, i) { assert MorePreds(a, b, i) && MorePreds(b, c, i); }
    forall i: nat | |a.blocks| <= i < |c.blocks| ensures Started(c, i) {
      if i < |b.blocks| && i != b.cur { assert Started(b, i) && SameAt(b.blocks, c.blocks, i); }
    }
  }

  lemma EmitFills(a: Builder, b: Builder, c: Builder)
    requires Fills(a, b) && SameEdges(b, c)
    ensures Fills(a, c)
  {
    forall i: nat | i < |a.blocks| && !IsTarget(a.loops, i) ensures PredsAt(a, c, i) {
      assert PredsAt(a, b, i) && SameEdgesAt(b, c, i);
    }
    forall i: nat | i < |a.blocks| ensures MorePreds(a, c, i) { assert MorePreds(a, b, i) && SameEdgesAt(b, c, i); }
    forall i: nat | |a.blocks| <= i < |c.blocks| ensures Started(c, i) { assert Started(b, i) && SameEdgesAt(b, c, i); }
  }

  lemma {:induction false} ExprFills(e: Source.Expr, st: Builder)
    requires st.Ready()
    ensures Fills(st, LowerExpr(e, st).0)
    decreases e, 0
  {
    hide AndRest, OrRest;
    hide Fills;
    match e
    case Binary(op, l, r) =>
      var s1 := LowerExpr(l, st).0;
      var s2 := LowerExpr(r, s1).0;
      ExprGrows(l, st);
      ExprGrows(r, s1);
      ExprFills(l, st);
      ExprFills(r, s1);
      FillsTrans(st, s1, s2);
      GrowsTrans(st, s1, s2);
      EmitFills(st, s2, LowerExpr(e, st).0);
    case Unary(op, a) =>
      ExprGrows(a, st);
      ExprFills(a, st);
      EmitFills(st, LowerExpr(a, st).0, LowerExpr(e, st).0);
    case LogicalAnd(l, r) =>
      var (s1, x) := LowerExpr(l, st);
      ExprGrows(l, st);
      ExprFills(l, st);
      AndFills(r, s1, x);
      AndGrows(r, s1, x);
      FillsTrans(st, s1, AndRest(r, s1, x).0);
    case LogicalOr(l, r) =>
      var (s1, x) := LowerExpr(l, st);
      ExprGrows(l, st);
      ExprFills(l, st);
      OrFills(r, s1, x, false);
      OrGrows(r, s1, x, false);
      FillsTrans(st, s1, OrRest(r, s1, x, false).0);
    case NullCoalesce(l, r) =>
      var (s1, x) := LowerExpr(l, st);
      ExprGrows(l, st);
      ExprFills(l, st);
      OrFills(r, s1, x, true);
      OrGrows(r, s1, x, true);
      FillsTrans(st, s1, OrRest(r, s1, x, true).0);
    case Literal(_) =>
      FillsRefl(st);
      EmitFills(st, st, LowerExpr(e, st).0);
    case Variable(_) => FillsRefl(st);
  }

  lemma {:induction false} AndFills(r: Source.Expr, s1: Builder, x: Operand)
    requires s1.Ready()
    ensures Fills(s1, AndRest(r, s1, x).0)
    decreases r, 1
  {
    var n := |s1.blocks|;
    var s2 := Split(s1, x).(cur := n);
    SplitFacts(s1, x);
    ExprGrows(r, s2);
    ExprFills(r, s2);
    AndMergeFills(s1, x, s2, LowerExpr(r, s2).0, LowerExpr(r, s2).1);
  }

  lemma SplitPreds(s1: Builder, x: Operand)
    requires s1.Ready()
    ensures var n := |s1.blocks|;
            var s := Split(s1, x);
            && s.blocks[n].preds == [s1.cur] && s.blocks[n + 1].preds == [s1.cur] && s.blocks[n + 2].preds == []
            && forall i: nat :: i < n ==> PredsAt(s1, s, i)
  {
  }

  lemma AndMergeFills(s1: Builder, x: Operand, s2: Builder, s3: Builder, y: Operand)
    requires s1.Ready() && s2 == Split(s1, x).(cur := |s1.blocks|) && s2.Ready() && s3.Ready() && Grows(s2, s3)
    requires Fills(s2, s3)
    ensures Fills(s1, AndMerge(s3, y, |s1.blocks|).0)
  {
    var n := |s1.blocks|;
    SplitPreds(s1, x);
    SplitFacts(s1, x);
    var fin := AndMerge(s3, y, n).0;
    forall i: nat | i < n && !IsTarget(s1.loops, i) ensures PredsAt(s1, fin, i) {
      assert PredsAt(s1, s2, i) && PredsAt(s2, s3, i);
    }
    forall i: nat | i < n ensures MorePreds(s1, fin, i) { assert PredsAt(s1, s2, i) && MorePreds(s2, s3, i); }
    forall i: nat | n <= i < |fin.blocks| ensures Started(fin, i) {
      if i >= n + 3 { assert Started(s3, i); }
    }
  }

  lemma {:induction false} OrFills(r: Source.Expr, s1: Builder, x: Operand, keepsLeft: bool)
    requires s1.Ready()
    ensures Fills(s1, OrRest(r, s1, x, keepsLeft).0)
    decreases r, 1
  {
    hide LowerExpr, OrMiddle;
    var s4 := OrMiddle(s1, x, keepsLeft);
    OrMiddleFacts(s1, x, keepsLeft);
    ExprGrows(r, s4);
    ExprFills(r, s4);
    OrMergeFills(s1, x, keepsLeft, s4, LowerExpr(r, s4).0, LowerExpr(r, s4).1,
                 if keepsLeft then x else Value(s1.nextId));
  }

  lemma OrMiddlePreds(s1: Builder, x: Operand, keepsLeft: bool)
    requires s1.Ready()
    ensures var n := |s1.blocks|;
            var s := OrMiddle(s1, x, keepsLeft);
            && s.blocks[n].preds == [s1.cur] && s.blocks[n + 1].preds == [s1.cur] && s.blocks[n + 2].preds == [n]
            && forall i: nat :: i < n ==> PredsAt(s1, s, i)
  {
    SplitPreds(s1, x);
  }

  lemma OrMergeFills(s1: Builder, x: Operand, keepsLeft: bool, s4: Builder, s5: Builder, y: Operand, v: Operand)
    requires s1.Ready() && s4 == OrMiddle(s1, x, keepsLeft) && s4.Ready() && s5.Ready() && Grows(s4, s5)
    requires Fills(s4, s5)
    ensures Fills(s1, OrMerge(s5, y, v, |s1.blocks|).0)
  {
    OrMiddlePreds(s1, x, keepsLeft);
    OrMiddleFacts(s1, x, keepsLeft);
    RejoinFills(s1, s4, s5, y, v);
  }

  lemma RejoinFills(s1: Builder, s4: Builder, s5: Builder, y: Operand, v: Operand)
    requires s1.Ready() && s4.Ready() && s5.Ready() && Grows(s4, s5) && Fills(s4, s5) && s4.loops == s1.loops
    requires |s4.blocks| == |s1.blocks| + 3 && s4.cur == |s1.blocks| + 1 && s4.blocks[|s1.blocks|].term.Some?
    requires forall i: nat :: i < |s1.blocks| ==> PredsAt(s1, s4, i)
    ensures Fills(s1, OrMerge(s5, y, v, |s1.blocks|).0)
  {
    var n := |s1.blocks|;
    var fin := OrMerge(s5, y, v, n).0;
    forall i: nat | i < n && !IsTarget(s1.loops, i) ensures PredsAt(s1, fin, i) {
      assert PredsAt(s1, s4, i) && PredsAt(s4, s5, i);
    }
    forall i: nat | i < n ensures MorePreds(s1, fin, i) { assert PredsAt(s1, s4, i) && MorePreds(s4, s5, i); }
    forall i: nat | n <= i < |fin.blocks| ensures Started(fin, i) {
      if i >= n + 3 { assert Started(s5, i); }
      if i == n { assert SameAt(s4.blocks, s5.blocks, n); }
    }
  }

  // ----- statements -----

  lemma FillsRefl(st: Builder)
    ensures Fills(st, st)
  {
  }

  lemma LeaveFills(s: Source.Stmt, st: Builder)
    requires st.Ready() && LoopsIn(st) && (s.Break? || s.Continue?)
    ensures Fills(st, LowerStmt(s, st))
  {
    if st.loops != [] {
      var l := st.loops[|st.loops| - 1];
      assert IsTarget(st.loops, l.breakTarget) && IsTarget(st.loops, l.continueTarget);
    }
  }

  /** A block that has ended, or that control will leave, has ended later. */
  lemma FinishedStays(a: Builder, b: Builder, i: nat)
    requires a.Ready() && Grows(a, b) && i < |a.blocks| && a.blocks[i].term.Some?
    ensures b.blocks[i].term.Some?
  {
    assert SameAt(a.blocks, b.blocks, i);
  }

  /** An arm from s3 to a, ended if need be by a jump to m: everything it made, and its first block, has ended. */
  lemma ArmFills(s3: Builder, a: Builder, m: nat)
    requires s3.Ready() && Grows(s3, a) && Fills(s3, a) && m < |s3.blocks|
    ensures var s := JumpUnlessDone(a, m);
            && |s3.blocks| <= |s.blocks|
            && (forall i: nat :: i < |s3.blocks| && !IsTarget(s3.loops, i) && i != m ==> PredsAt(s3, s, i))
            && (forall i: nat :: i < |s3.blocks| ==> MorePreds(s3, s, i))
            && (forall i: nat :: |s3.blocks| <= i < |s.blocks| ==> s.blocks[i].term.Some?)
            && s.blocks[s3.cur].term.Some?
            && (forall i: nat :: i < |s3.blocks| && s3.blocks[i].term.Some? ==> s.blocks[i].term.Some?)
            && (a.Ready() && !IsTarget(s3.loops, m) ==> s.blocks[m].preds == s3.blocks[m].preds + [a.cur])
            && (a.Terminated() && !IsTarget(s3.loops, m) ==> s.blocks[m].preds == s3.blocks[m].preds)
  {
    var s := JumpUnlessDone(a, m);
    forall i: nat | i < |s3.blocks| && !IsTarget(s3.loops, i) && i != m ensures PredsAt(s3, s, i) {
      assert PredsAt(s3, a, i);
    }
    forall i: nat | i < |s3.blocks| ensures MorePreds(s3, s, i) { assert MorePreds(s3, a, i); }
    forall i: nat | |s3.blocks| <= i < |s.blocks| ensures s.blocks[i].term.Some? { assert Started(a, i); }
    forall i: nat | i < |s3.blocks| && s3.blocks[i].term.Some? ensures s.blocks[i].term.Some? {
      FinishedStays(s3, a, i);
    }
    if !IsTarget(s3.loops, m) { assert PredsAt(s3, a, m); }
  }

  /** Where the edges are when the then arm of an `if` made in st is about to be lowered. */
  ghost predicate IfEdges(st: Builder, els: bool, c: nat, s3: Builder) {
    var n := |st.blocks|;
    var m := if els then n + 3 else n + 2;
    && m <= |s3.blocks| && s3.cur == n && s3.loops == st.loops
    && (forall i: nat :: i < n && !IsTarget(st.loops, i) ==> PredsAt(st, s3, i))
    && (forall i: nat :: i < n ==> MorePreds(st, s3, i))
    && (forall i: nat :: m <= i < |s3.blocks| ==> s3.blocks[i].term.Some?)
    && s3.blocks[n].preds == [c] && s3.blocks[n + 1].preds == (if els then [] else [c])
    && (els ==> s3.blocks[n + 2].preds == [c])
  }

  lemma IfBlocksEdges(els: bool, st: Builder)
    requires st.Ready()
    ensures var n := |st.blocks|;
            var s := IfBlocks(els, st);
            && s.blocks[n].preds == [] && s.blocks[n + 1].preds == [] && (els ==> s.blocks[n + 2].preds == [])
            && forall i: nat :: i < n ==> PredsAt(st, s, i)
  {
  }

  lemma BranchEdges(s2: Builder, x: Operand, t: nat, e: nat)
    requires s2.Ready() && t < |s2.blocks| && e < |s2.blocks| && t != e
    ensures var s := BranchTo(s2, x, t, e);
            && s.blocks[t].preds == s2.blocks[t].preds + [s2.cur] && s.blocks[e].preds == s2.blocks[e].preds + [s2.cur]
            && forall i: nat :: i < |s2.blocks| && i != t && i != e ==> PredsAt(s2, s, i)
  {
  }

  lemma OutOfLoops(st: Builder, b: nat)
    requires LoopsIn(st) && b >= |st.blocks|
    ensures !IsTarget(st.loops, b)
  {
  }

  /** Blocks made between s1 and s2 have ended once the block s2 is in has. */
  lemma StillEnded(s1: Builder, s2: Builder, s3: Builder)
    requires Fills(s1, s2) && s2.cur < |s2.blocks| == |s3.blocks|
    requires Untouched(s2, s3, {s2.cur}) && s3.blocks[s2.cur].term.Some?
    ensures forall i: nat :: |s1.blocks| <= i < |s3.blocks| ==> s3.blocks[i].term.Some?
  {
    forall i: nat | |s1.blocks| <= i < |s3.blocks| ensures s3.blocks[i].term.Some? {
      assert Started(s2, i);
      if i != s2.cur { assert SameAt(s2.blocks, s3.blocks, i); }
    }
  }

  lemma ThenEdges(els: bool, st: Builder, s2: Builder, x: Operand)
    requires st.Ready() && LoopsIn(st) && Grows(IfBlocks(els, st), s2) && s2.Ready() && Fills(IfBlocks(els, st), s2)
    ensures IfEdges(st, els, s2.cur, ThenArm(els, s2, x, |st.blocks|))
  {
    hide BranchTo, Untouched;
    var n := |st.blocks|;
    var s1 := IfBlocks(els, st);
    var e := if els then n + 2 else n + 1;
    var s := BranchTo(s2, x, n, e);
    var s3 := ThenArm(els, s2, x, n);
    IfBlocksEdges(els, st);
    BranchEdges(s2, x, n, e);
    BranchTouches(s2, x, n, e);
    OutOfLoops(st, n);
    OutOfLoops(st, n + 1);
    OutOfLoops(st, n + 2);
    assert PredsAt(s1, s2, n) && PredsAt(s1, s2, n + 1);
    if els { assert PredsAt(s1, s2, n + 2) && PredsAt(s2, s, n + 1); }
    forall i: nat | i < n ensures MorePreds(st, s3, i) && (!IsTarget(st.loops, i) ==> PredsAt(st, s3, i)) {
      assert PredsAt(st, s1, i) && MorePreds(s1, s2, i) && PredsAt(s2, s, i);
      if !IsTarget(st.loops, i) { assert PredsAt(s1, s2, i); }
    }
    StillEnded(s1, s2, s3);
  }

  /** And when it has been: s5 is where the else arm starts, or the end of the `if`. */
  ghost predicate ThenDone(st: Builder, els: bool, c: nat, a: Builder, s5: Builder)
    requires a.cur < |a.blocks|
  {
    var n := |st.blocks|;
    var m := if els then n + 3 else n + 2;
    && m <= |s5.blocks| && s5.loops == st.loops
    && (forall i: nat :: i < n && !IsTarget(st.loops, i) ==> PredsAt(st, s5, i))
    && (forall i: nat :: i < n ==> MorePreds(st, s5, i))
    && (forall i: nat :: m <= i < |s5.blocks| ==> s5.blocks[i].term.Some?) && s5.blocks[n].term.Some?
    && s5.blocks[n + 1].preds == (if els then [] else [c]) + (if a.Ready() then [a.cur] else [])
    && (els ==> s5.blocks[n + 2].preds == [c])
  }

  lemma ThenDoneEdges(st: Builder, els: bool, c: nat, s3: Builder, a: Builder)
    requires st.Ready() && LoopsIn(st) && IfEdges(st, els, c, s3) && s3.Ready() && Grows(s3, a) && Fills(s3, a)
    ensures var s := JumpUnlessDone(a, |st.blocks| + 1);
            forall k: nat :: k < |s.blocks| ==> ThenDone(st, els, c, a, s.(cur := k))
  {
    hide Appended;
    var n := |st.blocks|;
    var s := JumpUnlessDone(a, n + 1);
    ArmFills(s3, a, n + 1);
    OutOfLoops(st, n + 1);
    OutOfLoops(st, n + 2);
    forall i: nat | i < n && !IsTarget(st.loops, i) ensures PredsAt(st, s, i) {
      assert PredsAt(st, s3, i) && PredsAt(s3, s, i);
    }
    forall i: nat | i < n ensures MorePreds(st, s, i) { assert MorePreds(st, s3, i) && MorePreds(s3, s, i); }
    if els { assert PredsAt(s3, s, n + 2); }
    forall k: nat | k < |s.blocks| ensures ThenDone(st, els, c, a, s.(cur := k)) {
      var t := s.(cur := k);
      forall i: nat | i < n && !IsTarget(st.loops, i) ensures PredsAt(st, t, i) { assert PredsAt(st, s, i); }
      forall i: nat | i < n ensures MorePreds(st, t, i) { assert MorePreds(st, s, i); }
    }
  }

  lemma IfWithoutElseFills(st: Builder, c: nat, a: Builder, fin: Builder)
    requires st.Ready() && a.cur < |a.blocks| && ThenDone(st, false, c, a, fin) && fin.cur == |st.blocks| + 1
    ensures Fills(st, fin) && fin.blocks[|st.blocks| + 1].preds != []
  {
  }

  lemma IfWithElseFills(st: Builder, c: nat, a: Builder, s5: Builder, b: Builder)
    requires st.Ready() && LoopsIn(st) && a.cur < |a.blocks| && ThenDone(st, true, c, a, s5)
    requires s5.cur == |st.blocks| + 2
    requires s5.Ready() && Grows(s5, b) && Fills(s5, b)
    ensures var fin := JumpUnlessDone(b, |st.blocks| + 1).(cur := |st.blocks| + 1);
            Fills(st, fin) && (fin.blocks[|st.blocks| + 1].preds == [] <==> a.Terminated() && b.Terminated())
  {
    var n := |st.blocks|;
    var s := JumpUnlessDone(b, n + 1);
    var fin := s.(cur := n + 1);
    ArmFills(s5, b, n + 1);
    OutOfLoops(st, n + 1);
    forall i: nat | i < n && !IsTarget(st.loops, i) ensures PredsAt(st, fin, i) {
      assert PredsAt(st, s5, i) && PredsAt(s5, s, i);
    }
    forall i: nat | i < n ensures MorePreds(st, fin, i) { assert MorePreds(st, s5, i) && MorePreds(s5, s, i); }
    forall i: nat | n <= i < |fin.blocks| ensures Started(fin, i) { }
  }

  // ----- loops -----

  lemma WhileBlocksEdges(st: Builder)
    requires st.Ready()
    ensures var n := |st.blocks|;
            var s := WhileBlocks(st);
            && s.blocks[n].preds == [st.cur] && s.blocks[n + 1].preds == [] && s.blocks[n + 2].preds == []
            && forall i: nat :: i < n ==> PredsAt(st, s, i)
  {
  }

  /** Where the edges are when the body of a loop made in st is about to be lowered. */
  ghost predicate LoopEdges(st: Builder, c: nat, s3: Builder) {
    var n := |st.blocks|;
    && n + 3 <= |s3.blocks| && s3.cur == n + 1
    && (forall i: nat :: i < n && !IsTarget(st.loops, i) ==> PredsAt(st, s3, i))
    && (forall i: nat :: i < n ==> MorePreds(st, s3, i))
    && (forall i: nat :: n + 3 <= i < |s3.blocks| ==> s3.blocks[i].term.Some?) && s3.blocks[n].term.Some?
    && s3.blocks[n].preds == [st.cur] && s3.blocks[n + 1].preds == [c] && s3.blocks[n + 2].preds == [c]
    && s3.loops == st.loops + [Loop(n, n + 2)]
  }

  lemma BodyEdges(st: Builder, s2: Builder, x: Operand)
    requires st.Ready() && LoopsIn(st) && Grows(WhileBlocks(st), s2) && s2.Ready() && Fills(WhileBlocks(st), s2)
    ensures LoopEdges(st, s2.cur, WhileBody(s2, x, |st.blocks|))
  {
    var n := |st.blocks|;
    var s1 := WhileBlocks(st);
    var s3 := WhileBody(s2, x, n);
    WhileBlocksEdges(st);
    WhileBlocksFacts(st);
    BranchEdges(s2, x, n + 1, n + 2);
    BranchTouches(s2, x, n + 1, n + 2);
    OutOfLoops(st, n);
    OutOfLoops(st, n + 1);
    OutOfLoops(st, n + 2);
    assert PredsAt(s1, s2, n) && PredsAt(s1, s2, n + 1) && PredsAt(s1, s2, n + 2) && PredsAt(s2, s3, n);
    forall i: nat | i < n && !IsTarget(st.loops, i) ensures PredsAt(st, s3, i) {
      assert PredsAt(st, s1, i) && PredsAt(s1, s2, i) && PredsAt(s2, s3, i);
    }
    forall i: nat | i < n ensures MorePreds(st, s3, i) {
      assert PredsAt(st, s1, i) && MorePreds(s1, s2, i) && PredsAt(s2, s3, i);
    }
    forall i: nat | n + 3 <= i < |s3.blocks| ensures s3.blocks[i].term.Some? {
      assert Started(s2, i);
      if i != s2.cur { assert SameAt(s2.blocks, s3.blocks, i); }
    }
    if s2.cur != n { assert SameAt(s2.blocks, s3.blocks, n); }
  }

  lemma OtherTargets(st: Builder, n: nat, i: nat)
    requires !IsTarget(st.loops, i) && i != n && i != n + 2
    ensures !IsTarget(st.loops + [Loop(n, n + 2)], i)
  {
  }

  lemma LoopFills(st: Builder, c: nat, s3: Builder, a: Builder)
    requires st.Ready() && LoopsIn(st) && LoopEdges(st, c, s3) && s3.Ready() && Grows(s3, a) && Fills(s3, a)
    ensures var n := |st.blocks|;
            var fin := JumpUnlessDone(a, n).(cur := n + 2, loops := st.loops);
            Fills(st, fin) && fin.blocks[n + 2].preds != []
  {
    var n := |st.blocks|;
    var s := JumpUnlessDone(a, n);
    var fin := s.(cur := n + 2, loops := st.loops);
    ArmFills(s3, a, n);
    forall i: nat | i < n && !IsTarget(st.loops, i) ensures PredsAt(st, fin, i) {
      OtherTargets(st, n, i);
      assert PredsAt(st, s3, i) && PredsAt(s3, s, i);
    }
    forall i: nat | i < n ensures MorePreds(st, fin, i) { assert MorePreds(st, s3, i) && MorePreds(s3, s, i); }
    assert MorePreds(s3, s, n + 2);
    forall i: nat | n <= i < |fin.blocks| ensures Started(fin, i) { }
  }

  // ----- any statement -----

  lemma {:induction false} StmtFills(s: Source.Stmt, st: Builder)
    requires st.Ready() && LoopsIn(st)
    ensures Fills(st, LowerStmt(s, st))
    decreases s, 1
  {
    match s
    case Let(v, e) => BindFills(v, e, st);
    case Assign(v, e) => BindFills(v, e, st);
    case Print(e) =>
      ExprGrows(e, st);
      ExprFills(e, st);
      EmitFills(st, LowerExpr(e, st).0, LowerStmt(s, st));
    case ExprStmt(e) => ExprFills(e, st);
    case If(c, t, els) => IfFills(c, t, els, st);
    case While(c, b) => WhileFills(c, b, st);
    case Block(ss) => AllFills(ss, st);
    case Break => LeaveFills(s, st);
    case Continue => LeaveFills(s, st);
    case Return(e) =>
      ExprGrows(e, st);
      ExprFills(e, st);
      EndFills(st, LowerExpr(e, st).0, Hir.Return(Some(LowerExpr(e, st).1)));
  }

  lemma BindFills(v: Var, e: Source.Expr, st: Builder)
    requires st.Ready()
    ensures var (s1, o) := LowerExpr(e, st); Fills(st, BindLocal(s1, v, o))
  {
    ExprGrows(e, st);
    ExprFills(e, st);
    var (s1, o) := LowerExpr(e, st);
    BindKeepsEdges(s1, v, o);
    EmitFills(st, s1, BindLocal(s1, v, o));
  }

  lemma BindKeepsEdges(s1: Builder, v: Var, o: Operand)
    requires s1.Ready()
    ensures SameEdges(s1, BindLocal(s1, v, o))
  {
    forall b: nat | b < |s1.blocks| ensures SameEdgesAt(s1, BindLocal(s1, v, o), b) {}
  }

  lemma EndFills(a: Builder, b: Builder, t: Term)
    requires Fills(a, b) && b.Ready()
    ensures Fills(a, SetTerm(b, t))
  {
    var c := SetTerm(b, t);
    forall i: nat | i < |a.blocks| && !IsTarget(a.loops, i) ensures PredsAt(a, c, i) { assert PredsAt(a, b, i); }
    forall i: nat | i < |a.blocks| ensures MorePreds(a, c, i) { assert MorePreds(a, b, i); }
    forall i: nat | |a.blocks| <= i < |c.blocks| ensures Started(c, i) { assert Started(b, i); }
  }

  lemma {:induction false} AllFills(ss: seq<Source.Stmt>, st: Builder)
    requires st.Ready() && LoopsIn(st)
    ensures Fills(st, LowerAll(ss, st))
    decreases ss, 2
  {
    if ss == [] {
      FillsRefl(st);
    } else {
      var s1 := LowerStmt(ss[0], st);
      StmtGrows(ss[0], st);
      StmtFills(ss[0], st);
      if s1.Ready() {
        AllFills(ss[1..], s1);
        AllGrows(ss[1..], s1);
        FillsTrans(st, s1, LowerAll(ss[1..], s1));
      } else {
        assert LowerAll(ss[1..], s1) == s1;
      }
    }
  }

  lemma {:induction false} IfFills(c: Source.Expr, t: Source.Stmt, els: Option<Source.Stmt>, st: Builder)
    requires st.Ready() && LoopsIn(st)
    ensures Fills(st, LowerIf(c, t, els, st))
    decreases Source.If(c, t, els), 0
  {
    hide LowerExpr, LowerStmt, LowerArm, LowerElse, ThenStart, ThenArm, JumpUnlessDone, Untouched, LowerIf, IsTarget,
         LoopsIn, Appended;
    hide IfEdges, Fills, Grows, InArm, IfBlocks;
    var p := IfIsSteps(c, t, els, st);
    IfReady(p);
    IfBlocksFacts(els.Some?, st);
    ExprFills(c, IfBlocks(els.Some?, st));
    ThenEdges(els.Some?, st, p.ready, p.cond);
    StmtFills(t, p.inThen);
    if els.Some? { StmtFills(els.value, p.inElse); }
    IfStepsFill(p);
  }

  /** The merge block of an `if` is left without predecessors exactly when both its arms have ended. */
  lemma IfStepsFill(p: IfStates)
    requires IfSteps(p) && LoopsIn(p.before) && p.inThen.Ready() && p.inElse.Ready()
    requires IfEdges(p.before, p.hasElse, p.ready.cur, p.inThen) && Fills(p.inThen, p.afterThen)
    requires (p.hasElse ==> Fills(p.inElse, p.afterElse))
    ensures Fills(p.before, p.done) && ThenDone(p.before, p.hasElse, p.ready.cur, p.afterThen, p.inElse)
    ensures p.done.blocks[|p.before.blocks| + 1].preds == [] <==>
      p.hasElse && p.afterThen.Terminated() && p.afterElse.Terminated()
  {
    hide Fills, JumpUnlessDone, ThenArm;
    ThenDoneEdges(p.before, p.hasElse, p.ready.cur, p.inThen, p.afterThen);
    if p.hasElse {
      IfWithElseFills(p.before, p.ready.cur, p.afterThen, p.inElse, p.afterElse);
    } else {
      IfWithoutElseFills(p.before, p.ready.cur, p.afterThen, p.done);
    }
  }

  lemma {:induction false} WhileFills(c: Source.Expr, b: Source.Stmt, st: Builder)
    requires st.Ready() && LoopsIn(st)
    ensures Fills(st, LowerWhile(c, b, st))
    decreases Source.While(c, b), 0
  {
    hide LowerExpr, LoopEdges, SetTerm;
    var p := WhileIsSteps(c, b, st);
    WhileReady(p);
    ExprFills(c, p.inCond);
    BodyEdges(st, p.ready, p.cond);
    StmtFills(b, p.inBody);
    LoopFills(st, p.ready.cur, p.inBody, p.afterBody);
  }
}
