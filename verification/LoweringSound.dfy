/** Lowering keeps the rules of the graph, for expressions and statements of any shape. */
module LoweringSound {
  import opened Wrappers
  import opened Hir
  import opened Lowering
  import opened LoweringGrowth
  import opened LoweringShape
  import opened LoweringEdges
  import opened LoweringSteps
  import opened Scoping
  import opened LoweringEnds
  import Source

  // ----- expressions -----

  ghost predicate VarsHere(st: Builder, l: Layout, vars: set<Var>)
    requires st.cur < |st.blocks|
  {
    forall v :: v in vars ==> OperandAt(st, l, VarRef(v), st.cur, |st.Code()|)
  }

  /** st2 has come from st, and its current block is below st's. */
  ghost predicate Below(st: Builder, l: Layout, st2: Builder, l2: Layout) {
    && Later(st, l, st2, l2)
    && st.cur < |l.above| && st2.cur < |l2.above| == |st2.blocks| && l.above[st.cur] <= l2.above[st2.cur]
    && (st2.cur == st.cur || st2.cur >= |st.blocks|)
  }

  /** And no variable has been declared on the way. */
  ghost predicate Onward(st: Builder, l: Layout, st2: Builder, l2: Layout) {
    Below(st, l, st2, l2) && l2.decl == l.decl && st2.loops == st.loops
  }

  lemma BelowTrans(a: Builder, la: Layout, b: Builder, lb: Layout, c: Builder, lc: Layout)
    requires Below(a, la, b, lb) && Below(b, lb, c, lc)
    ensures Below(a, la, c, lc)
  {
    LaterTrans(a, la, b, lb, c, lc);
  }

  lemma OnwardTrans(a: Builder, la: Layout, b: Builder, lb: Layout, c: Builder, lc: Layout)
    requires Onward(a, la, b, lb) && Onward(b, lb, c, lc)
    ensures Onward(a, la, c, lc)
  {
    LaterTrans(a, la, b, lb, c, lc);
  }

  /** What is there at the end of st is there at the end of st2. */
  lemma HereCarries(st: Builder, l: Layout, st2: Builder, l2: Layout, o: Operand)
    requires Sound(st, l) && Below(st, l, st2, l2) && st.cur < |st.blocks| && OperandAt(st, l, o, st.cur, |st.Code()|)
    ensures st2.cur < |st2.blocks| && OperandAt(st2, l2, o, st2.cur, |st2.Code()|)
  {
    assert BlockLater(st, l, st2, l2, st.cur);
    if st2.cur == st.cur {
      OperandStays(st, l, st2, l2, o, st.cur, |st.Code()|, |st2.Code()|);
    } else {
      OperandCarries(st, l, st2, l2, o, st.cur, |st.Code()|, st2.cur, |st2.Code()|);
    }
  }

  lemma VarsCarry(st: Builder, l: Layout, st2: Builder, l2: Layout, vars: set<Var>)
    requires Sound(st, l) && Below(st, l, st2, l2) && st.cur < |st.blocks| && VarsHere(st, l, vars)
    ensures st2.cur < |st2.blocks| && VarsHere(st2, l2, vars)
  {
    forall v | v in vars ensures OperandAt(st2, l2, VarRef(v), st2.cur, |st2.Code()|) {
      HereCarries(st, l, st2, l2, VarRef(v));
    }
  }

  /** Control moves into a block made since st. */
  lemma ArmStarts(st0: Builder, l0: Layout, st: Builder, l: Layout, p: nat) returns (l2: Layout)
    requires Sound(st0, l0) && st0.Ready() && Sound(st, l) && Later(st0, l0, st, l)
    requires st.cur < |st.blocks| && st.Terminated() && |st0.blocks| <= p < |st.blocks| == |l.above|
    requires !Started(st, p) && st.blocks[p].preds != []
    requires st0.cur < |l0.above| && l0.above[st0.cur] <= l.above[p]
    requires |st0.loops| <= |st.loops| && forall i :: 0 <= i < |st0.loops| ==> st.loops[i] == st0.loops[i]
    ensures Sound(st.(cur := p, loops := st0.loops), l2) && Below(st0, l0, st.(cur := p, loops := st0.loops), l2)
    ensures l2.above == l.above && l2.decl == l.decl
  {
    assert Holds(Sized, st, l) && Holds(LoopsOpen, st, l) && Holds(LoopsOpen, st0, l0);
    forall i | 0 <= i < |st0.loops|
      ensures ReachAt(st, l, st0.loops[i].continueTarget, p) && ReachAt(st, l, st0.loops[i].breakTarget, p)
    {
      assert TargetAt(st0, l0, st0.loops[i].continueTarget) && TargetAt(st0, l0, st0.loops[i].breakTarget);
      assert BlockLater(st0, l0, st, l, st0.loops[i].continueTarget);
      assert BlockLater(st0, l0, st, l, st0.loops[i].breakTarget);
      assert TargetAt(st, l, st.loops[i].continueTarget) && TargetAt(st, l, st.loops[i].breakTarget);
    }
    MoveSound(st, l, p, st0.loops);
    l2 := StartAt(st, l, p);
    LaterTrans(st0, l0, st, l, st.(cur := p, loops := st0.loops), l2);
  }

  /** Three fresh blocks below the current one. */
  lemma ThreeBlocks(st: Builder, l: Layout, a: set<nat>, b: set<nat>, c: set<nat>) returns (st2: Builder, l2: Layout)
    requires Sound(st, l) && |st.blocks| in a && |st.blocks| + 1 in b && |st.blocks| + 2 in c
    ensures st2 == MakeBlock(MakeBlock(MakeBlock(st))) && l2 == WithBlock(WithBlock(WithBlock(l, a), b), c)
    ensures Sound(st2, l2) && Later(st, l, st2, l2)
  {
    var s1, l1 := MakeBlock(st), WithBlock(l, a);
    MakeBlockSound(st, l, a);
    var s2, m2 := MakeBlock(s1), WithBlock(l1, b);
    MakeBlockSound(s1, l1, b);
    MakeBlockSound(s2, m2, c);
    st2, l2 := MakeBlock(s2), WithBlock(m2, c);
    LaterTrans(st, l, s1, l1, s2, m2);
    LaterTrans(st, l, s2, m2, st2, l2);
  }

  /** The branch of a short-circuit operator, and its three blocks. */
  lemma SplitSound(s1: Builder, l: Layout, x: Operand) returns (l2: Layout)
    requires Sound(s1, l) && s1.Ready() && OperandAt(s1, l, x, s1.cur, |s1.Code()|)
    ensures Sound(Split(s1, x), l2) && Later(s1, l, Split(s1, x), l2) && l2.decl == l.decl
    ensures var n := |s1.blocks|;
            && |l2.above| == n + 3 && s1.cur < |l.above|
            && l2.above[n] == l.above[s1.cur] + {n} && l2.above[n + 1] == l.above[s1.cur] + {n + 1}
            && l2.above[n + 2] == l.above[s1.cur] + {n + 2}
  {
    hide BranchTo;
    var n := |s1.blocks|;
    assert Holds(Sized, s1, l);
    var base := l.above[s1.cur];
    var s2;
    s2, l2 := ThreeBlocks(s1, l, base + {n}, base + {n + 1}, base + {n + 2});
    assert BlockLater(s1, l, s2, l2, s1.cur);
    OperandStays(s1, l, s2, l2, x, s1.cur, |s1.Code()|, |s1.Code()|);
    BranchSound(s2, l2, x, n, n + 1);
    LaterTrans(s1, l, s2, l2, Split(s1, x), l2);
  }

  /** The merge block of a short-circuit operator made in st0: its phi has the two arms' results. */
  lemma RejoinSound(st0: Builder, l0: Layout, st: Builder, l: Layout, m: nat, p: nat, x: Operand, q: nat, y: Operand)
    returns (l2: Layout)
    requires Sound(st0, l0) && st0.Ready() && Sound(st, l) && Later(st0, l0, st, l) && l.decl == l0.decl
    requires st.loops == st0.loops
    requires st.cur < |st.blocks| && st.Terminated() && |st0.blocks| <= m < |st.blocks| == |l.above| && !Started(st, m)
    requires st.blocks[m].preds == [p, q] && EntryAt(st, l, Incoming(p, x)) && EntryAt(st, l, Incoming(q, y))
    requires st0.cur < |l0.above| && l0.above[st0.cur] <= l.above[m]
    ensures var (fin, o) := Merge(st, m, p, x, q, y);
            && Sound(fin, l2) && Onward(st0, l0, fin, l2) && OperandAt(fin, l2, o, fin.cur, |fin.Code()|)
  {
    l2 := ArmStarts(st0, l0, st, l, m);
    var s := st.(cur := m, loops := st0.loops);
    var phis := [Incoming(p, x), Incoming(q, y)];
    MergeFits(st0, l0, st, l, m, l2, phis);
    PhiSound(s, l2, phis);
    LaterTrans(st0, l0, s, l2, EmitPhi(s, phis), l2);
  }

  lemma MergeFits(st0: Builder, l0: Layout, st: Builder, l: Layout, m: nat, l2: Layout, phis: seq<Incoming>)
    requires Sound(st0, l0) && Sound(st, l) && st.loops == st0.loops && |st0.blocks| <= m < |st.blocks|
    requires !Started(st, m)
    requires |l.above| == |st.blocks| && l2.above == l.above && l2.decl == l.decl
    requires |phis| == |st.blocks[m].preds|
    requires forall k :: 0 <= k < |phis| ==> phis[k].pred == st.blocks[m].preds[k] && EntryAt(st, l, phis[k])
    ensures PhiFits(st.(cur := m), l2, phis)
  {
    var s := st.(cur := m);
    assert Holds(PendingEmpty, st, l) && Holds(LoopsOpen, st0, l0);
    assert PendingAt(st, m);
    forall b: nat | b < |st.blocks| ensures BlockLater(st, l, s, l2, b) {}
    forall k | 0 <= k < |phis| ensures EntryAt(s, l2, phis[k]) { EntryStays(st, l, s, l2, phis[k]); }
    forall i | 0 <= i < |s.loops| ensures s.loops[i].continueTarget != m && s.loops[i].breakTarget != m {
      assert TargetAt(st0, l0, st0.loops[i].continueTarget) && TargetAt(st0, l0, st0.loops[i].breakTarget);
    }
  }

  /** The right operand of `&&` has been lowered from s2 to s3. */
  ghost predicate AndGoes(s1: Builder, l1: Layout, x: Operand, s2: Builder, l2: Layout, s3: Builder, l3: Layout,
                          y: Operand) {
    var n := |s1.blocks|;
    && Sound(s1, l1) && s1.Ready() && s2 == Split(s1, x).(cur := n) && s2.Ready() && Onward(s1, l1, s2, l2)
    && |l2.above| == n + 3
    && l1.above[s1.cur] <= l2.above[n]
    && l2.above[n + 1] == l1.above[s1.cur] + {n + 1} && l2.above[n + 2] == l1.above[s1.cur] + {n + 2}
    && Sound(s3, l3) && s3.Ready() && Onward(s2, l2, s3, l3) && Grows(s2, s3) && Fills(s2, s3)
    && OperandAt(s3, l3, y, s3.cur, |s3.Code()|)
  }

  lemma NotATarget(st: Builder, l: Layout, b: nat)
    requires Sound(st, l) && b >= |st.blocks|
    ensures !IsTarget(st.loops, b)
  {
    assert Holds(LoopsOpen, st, l);
    forall i | 0 <= i < |st.loops| ensures st.loops[i].continueTarget != b && st.loops[i].breakTarget != b {
      assert TargetAt(st, l, st.loops[i].continueTarget) && TargetAt(st, l, st.loops[i].breakTarget);
    }
  }

  /** What `&&` has left of its false and merge blocks by the end of its right operand. */
  lemma AndPending(s1: Builder, l1: Layout, x: Operand, s2: Builder, l2: Layout, s3: Builder, l3: Layout, y: Operand)
    requires AndGoes(s1, l1, x, s2, l2, s3, l3, y)
    ensures var n := |s1.blocks|;
            && n + 3 <= |s3.blocks| == |l3.above| && SameBody(EMPTY, s3.blocks[n + 1])
            && SameBody(EMPTY, s3.blocks[n + 2])
            && s3.blocks[n + 1].preds == [s1.cur] && s3.blocks[n + 2].preds == []
            && l3.above[n + 1] == l1.above[s1.cur] + {n + 1} && l3.above[n + 2] == l1.above[s1.cur] + {n + 2}
            && l1.above[s1.cur] <= l3.above[s3.cur] && (s3.cur == n || s3.cur >= n + 3)
    ensures Onward(s1, l1, s3, l3)
  {
    var n := |s1.blocks|;
    SplitFacts(s1, x);
    SplitPreds(s1, x);
    NotATarget(s1, l1, n + 1);
    NotATarget(s1, l1, n + 2);
    assert SameAt(s2.blocks, s3.blocks, n + 1) && SameAt(s2.blocks, s3.blocks, n + 2);
    assert PredsAt(s2, s3, n + 1) && PredsAt(s2, s3, n + 2);
    assert BlockLater(s2, l2, s3, l3, n + 1) && BlockLater(s2, l2, s3, l3, n + 2);
    OnwardTrans(s1, l1, s2, l2, s3, l3);
  }

  /** The jump from the right operand's end, and the false block. */
  lemma AndFalseArm(s1: Builder, l1: Layout, s3: Builder, l3: Layout, y: Operand) returns (s6: Builder, l4: Layout)
    requires Sound(s1, l1) && s1.Ready() && Sound(s3, l3) && s3.Ready() && Onward(s1, l1, s3, l3)
    requires OperandAt(s3, l3, y, s3.cur, |s3.Code()|)
    requires var n := |s1.blocks|;
             && n + 3 <= |s3.blocks| == |l3.above| && SameBody(EMPTY, s3.blocks[n + 1])
             && SameBody(EMPTY, s3.blocks[n + 2])
             && s3.blocks[n + 1].preds == [s1.cur] && s3.blocks[n + 2].preds == []
             && l3.above[n + 1] == l1.above[s1.cur] + {n + 1} && l3.above[n + 2] == l1.above[s1.cur] + {n + 2}
             && l1.above[s1.cur] <= l3.above[s3.cur] && (s3.cur == n || s3.cur >= n + 3)
    ensures var n := |s1.blocks|;
            && s6 == Produce(JumpTo(s3, n + 2).(cur := n + 1), ConstInt(0), [])
            && Sound(s6, l4) && Onward(s1, l1, s6, l4) && s6.Ready() && l4.above == l3.above && Later(s3, l3, s6, l4)
            && OperandAt(s6, l4, Value(s3.nextId), n + 1, 1) && |s6.Code()| == 1
            && !Started(s6, n + 2) && s6.blocks[n + 2].preds == [s3.cur] && s6.blocks[n + 2].code == []
            && s6.blocks[s3.cur].code == s3.Code()
  {
    hide CodeLater, Sound, Untouched;
    var n := |s1.blocks|;
    JumpSound(s3, l3, n + 2);
    var s4 := JumpTo(s3, n + 2);
    JumpTouches(s3, n + 2);
    assert SameAt(s3.blocks, s4.blocks, n + 1);
    LaterTrans(s1, l1, s3, l3, s4, l3);
    l4 := ArmStarts(s1, l1, s4, l3, n + 1);
    var s5 := s4.(cur := n + 1);
    assert Later(s3, l3, s5, l4) by {
      forall b: nat | b < |s3.blocks| ensures BlockLater(s3, l3, s5, l4, b) { assert BlockLater(s3, l3, s4, l3, b); }
    }
    ProduceSound(s5, l4, ConstInt(0), []);
    s6 := Produce(s5, ConstInt(0), []);
    LaterTrans(s1, l1, s5, l4, s6, l4);
    LaterTrans(s3, l3, s5, l4, s6, l4);
  }

  lemma AndMergeSound(s1: Builder, l1: Layout, x: Operand, s2: Builder, l2: Layout, s3: Builder, l3: Layout, y: Operand)
    returns (l: Layout)
    requires AndGoes(s1, l1, x, s2, l2, s3, l3, y)
    ensures var (fin, o) := AndMerge(s3, y, |s1.blocks|);
            && Sound(fin, l) && Onward(s1, l1, fin, l) && OperandAt(fin, l, o, fin.cur, |fin.Code()|)
  {
    hide Split, BranchTo, Holds, Grows, Later, OperandAt, EntryAt, BlockLater, VisibleAt, Sound, Fills, MadeAt,
         Merge, Started;
    var n := |s1.blocks|;
    AndPending(s1, l1, x, s2, l2, s3, l3, y);
    var s6, l4 := AndFalseArm(s1, l1, s3, l3, y);
    AndRejoins(s1, l1, s3, l3, y, s6, l4);
    l := RejoinSound(s1, l1, JumpTo(s6, n + 2), l4, n + 2, s3.cur, y, n + 1, Value(s3.nextId));
  }

  lemma AndRejoins(s1: Builder, l1: Layout, s3: Builder, l3: Layout, y: Operand, s6: Builder, l4: Layout)
    requires Sound(s6, l4) && s6.Ready() && Later(s3, l3, s6, l4) && s3.cur < |s3.blocks|
    requires OperandAt(s3, l3, y, s3.cur, |s3.Code()|)
    requires var n := |s1.blocks|;
             && n + 2 < |s6.blocks| == |l4.above| && s6.cur == n + 1 && s3.cur != n + 1 && s3.cur != n + 2
             && OperandAt(s6, l4, Value(s3.nextId), n + 1, 1) && |s6.Code()| == 1
             && !Started(s6, n + 2) && s6.blocks[n + 2].preds == [s3.cur] && s6.blocks[n + 2].code == []
             && s6.blocks[s3.cur].code == s3.Code() && s1.cur < |l1.above|
             && l4.above[n + 1] == l1.above[s1.cur] + {n + 1}
             && l4.above[n + 2] == l1.above[s1.cur] + {n + 2}
    requires Later(s1, l1, s6, l4)
    ensures var n := |s1.blocks|;
            var s7 := JumpTo(s6, n + 2);
            && Sound(s7, l4) && Later(s1, l1, s7, l4)
            && s7.Terminated() && !Started(s7, n + 2) && s7.blocks[n + 2].preds == [s3.cur, n + 1]
            && EntryAt(s7, l4, Incoming(s3.cur, y)) && EntryAt(s7, l4, Incoming(n + 1, Value(s3.nextId)))
  {
    var n := |s1.blocks|;
    var s7 := JumpTo(s6, n + 2);
    JumpTouches(s6, n + 2);
    assert SameAt(s6.blocks, s7.blocks, s3.cur) && SameAt(s6.blocks, s7.blocks, n + 2);
    JumpSound(s6, l4, n + 2);
    LaterTrans(s1, l1, s6, l4, s7, l4);
    LaterTrans(s3, l3, s6, l4, s7, l4);
    OperandStays(s3, l3, s7, l4, y, s3.cur, |s3.Code()|, |s3.Code()|);
    OperandStays(s6, l4, s7, l4, Value(s3.nextId), n + 1, 1, 1);
  }

  /** `||` and `??` up to their right operand. */
  lemma OrMiddleSound(s1: Builder, l1: Layout, x: Operand, keepsLeft: bool) returns (l4: Layout)
    requires Sound(s1, l1) && s1.Ready() && OperandAt(s1, l1, x, s1.cur, |s1.Code()|)
    ensures var n := |s1.blocks|;
            var s4 := OrMiddle(s1, x, keepsLeft);
            && Sound(s4, l4) && Onward(s1, l1, s4, l4) && |l4.above| == n + 3 && l1.above[s1.cur] <= l4.above[n + 1]
            && l4.above[n + 2] == l1.above[s1.cur] + {n + 2}
            && EntryAt(s4, l4, Incoming(n, if keepsLeft then x else Value(s1.nextId)))
  {
    var n := |s1.blocks|;
    var lA := SplitSound(s1, l1, x);
    var sA := Split(s1, x);
    SplitFacts(s1, x);
    SplitPreds(s1, x);
    var lB := ArmStarts(s1, l1, sA, lA, n);
    var s2 := sA.(cur := n);
    var s3, v := OrTrueSound(s1, l1, x, keepsLeft, s2, lB);
    JumpSound(s3, lB, n + 2);
    var s := JumpTo(s3, n + 2);
    LaterTrans(s1, l1, s3, lB, s, lB);
    l4 := ArmStarts(s1, l1, s, lB, n + 1);
    var s4 := s.(cur := n + 1);
    forall b: nat | b < |s3.blocks| ensures BlockLater(s3, lB, s4, l4, b) { assert BlockLater(s3, lB, s, lB, b); }
    OperandStays(s3, lB, s4, l4, v, n, |s3.Code()|, |s3.Code()|);
  }

  /** The true block: 1, or the left operand carried into it. */
  lemma OrTrueSound(s1: Builder, l1: Layout, x: Operand, keepsLeft: bool, s2: Builder, lB: Layout)
    returns (s3: Builder, v: Operand)
    requires Sound(s1, l1) && s1.Ready() && OperandAt(s1, l1, x, s1.cur, |s1.Code()|)
    requires Sound(s2, lB) && s2.Ready() && Onward(s1, l1, s2, lB) && s2.cur == |s1.blocks| && s2.Code() == []
    requires s2.nextId == s1.nextId
    ensures s3 == (if keepsLeft then s2 else Produce(s2, ConstInt(1), []))
    ensures v == (if keepsLeft then x else Value(s1.nextId))
    ensures Sound(s3, lB) && Later(s1, l1, s3, lB) && s3.Ready() && OperandAt(s3, lB, v, s3.cur, |s3.Code()|)
  {
    s3 := if keepsLeft then s2 else Produce(s2, ConstInt(1), []);
    v := if keepsLeft then x else Value(s1.nextId);
    if keepsLeft {
      HereCarries(s1, l1, s2, lB, x);
    } else {
      ProduceSound(s2, lB, ConstInt(1), []);
      LaterTrans(s1, l1, s2, lB, s3, lB);
    }
  }

  lemma OrMergeSound(s1: Builder, l1: Layout, x: Operand, keepsLeft: bool, s4: Builder, l4: Layout, s5: Builder,
                     l5: Layout, y: Operand)
    returns (l: Layout)
    requires Sound(s1, l1) && s1.Ready() && s4 == OrMiddle(s1, x, keepsLeft) && s4.Ready() && Onward(s1, l1, s4, l4)
    requires |l4.above| == |s1.blocks| + 3 && l4.above[|s1.blocks| + 2] == l1.above[s1.cur] + {|s1.blocks| + 2}
    requires EntryAt(s4, l4, Incoming(|s1.blocks|, if keepsLeft then x else Value(s1.nextId)))
    requires Sound(s5, l5) && s5.Ready() && Onward(s4, l4, s5, l5) && Grows(s4, s5) && Fills(s4, s5)
    requires OperandAt(s5, l5, y, s5.cur, |s5.Code()|)
    ensures var (fin, o) := OrMerge(s5, y, if keepsLeft then x else Value(s1.nextId), |s1.blocks|);
            && Sound(fin, l) && Onward(s1, l1, fin, l) && OperandAt(fin, l, o, fin.cur, |fin.Code()|)
  {
    hide Split, CodeLater, IsSplit;
    var n := |s1.blocks|;
    var v := if keepsLeft then x else Value(s1.nextId);
    OrMiddleFacts(s1, x, keepsLeft);
    OrMiddlePreds(s1, x, keepsLeft);
    NotATarget(s1, l1, n + 2);
    assert SameAt(s4.blocks, s5.blocks, n + 2) && PredsAt(s4, s5, n + 2) && BlockLater(s4, l4, s5, l5, n + 2);
    OnwardTrans(s1, l1, s4, l4, s5, l5);
    EntryStays(s4, l4, s5, l5, Incoming(n, v));
    l := MergeAfter(s1, l1, s5, l5, n, v, y);
  }

  /** The right operand's end jumps to the merge block, which so far has the true block's entry. */
  lemma MergeAfter(s1: Builder, l1: Layout, s5: Builder, l5: Layout, n: nat, v: Operand, y: Operand) returns (l: Layout)
    requires Sound(s1, l1) && s1.Ready() && n == |s1.blocks| && Sound(s5, l5) && s5.Ready() && Onward(s1, l1, s5, l5)
    requires n + 2 < |s5.blocks| == |l5.above| && SameBody(EMPTY, s5.blocks[n + 2]) && s5.blocks[n + 2].preds == [n]
    requires s5.cur != n + 2
    requires l5.above[n + 2] == l1.above[s1.cur] + {n + 2} && EntryAt(s5, l5, Incoming(n, v))
    requires OperandAt(s5, l5, y, s5.cur, |s5.Code()|)
    ensures var (fin, o) := OrMerge(s5, y, v, n);
            && Sound(fin, l) && Onward(s1, l1, fin, l) && OperandAt(fin, l, o, fin.cur, |fin.Code()|)
  {
    var s6 := JumpTo(s5, n + 2);
    JumpSound(s5, l5, n + 2);
    JumpTouches(s5, n + 2);
    assert SameAt(s5.blocks, s6.blocks, n + 2);
    LaterTrans(s1, l1, s5, l5, s6, l5);
    EntryStays(s5, l5, s6, l5, Incoming(n, v));
    OperandStays(s5, l5, s6, l5, y, s5.cur, |s5.Code()|, |s5.Code()|);
    l := RejoinSound(s1, l1, s6, l5, n + 2, n, v, s5.cur, y);
  }

  /** An expression over variables that are there keeps the rules, and its value is there afterwards. */
  lemma {:induction false} ExprSound(e: Source.Expr, st: Builder, l: Layout) returns (l1: Layout)
    requires Sound(st, l) && st.Ready() && VarsHere(st, l, ExprVars(e))
    ensures var (s1, o) := LowerExpr(e, st);
            && Sound(s1, l1) && Onward(st, l, s1, l1) && OperandAt(s1, l1, o, s1.cur, |s1.Code()|)
    decreases e, 1
  {
    hide AndRest, OrRest;
    assert Holds(Sized, st, l);
    match e
    case Literal(c) =>
      ProduceSound(st, l, ConstInt(c.Word()), []);
      l1 := l;
    case Variable(v) =>
      LaterRefl(st, l);
      l1 := l;
    case Binary(op, a, b) =>
      var la := ExprSound(a, st, l);
      l1 := BinarySound(op, a, b, st, l, la);
    case Unary(op, a) =>
      l1 := ExprSound(a, st, l);
      ExprGrows(a, st);
      OperatorSound(st, l, LowerExpr(a, st).0, l1, UnaryToIr(op), [LowerExpr(a, st).1]);
    case LogicalAnd(a, b) =>
      var la := ExprSound(a, st, l);
      l1 := AndSound(a, b, st, l, la);
    case LogicalOr(a, b) =>
      var la := ExprSound(a, st, l);
      l1 := OrSound(a, b, false, st, l, la);
    case NullCoalesce(a, b) =>
      var la := ExprSound(a, st, l);
      l1 := OrSound(a, b, true, st, l, la);
  }

  lemma OperatorSound(st: Builder, l: Layout, s1: Builder, l1: Layout, op: Op, args: seq<Operand>)
    requires Sound(s1, l1) && s1.Ready() && Onward(st, l, s1, l1)
    requires forall o :: o in args ==> OperandAt(s1, l1, o, s1.cur, |s1.Code()|)
    ensures var s2 := Produce(s1, op, args);
            && Sound(s2, l1) && Onward(st, l, s2, l1) && OperandAt(s2, l1, Value(s1.nextId), s2.cur, |s2.Code()|)
  {
    ProduceSound(s1, l1, op, args);
    LaterTrans(st, l, s1, l1, Produce(s1, op, args), l1);
  }

  lemma {:induction false} BinarySound(op: Source.BinaryOp, a: Source.Expr, b: Source.Expr, st: Builder, l: Layout,
                                       l1: Layout)
    returns (l2: Layout)
    requires Sound(st, l) && st.Ready() && VarsHere(st, l, ExprVars(b))
    requires var (s1, x) := LowerExpr(a, st);
             Sound(s1, l1) && Onward(st, l, s1, l1) && OperandAt(s1, l1, x, s1.cur, |s1.Code()|)
    ensures var (s1, x) := LowerExpr(a, st);
            var (s2, y) := LowerExpr(b, s1);
            var s3 := Produce(s2, BinaryToIr(op), [x, y]);
            && Sound(s3, l2) && Onward(st, l, s3, l2) && OperandAt(s3, l2, Value(s2.nextId), s3.cur, |s3.Code()|)
    decreases Source.Binary(op, a, b), 0
  {
    var (s1, x) := LowerExpr(a, st);
    ExprGrows(a, st);
    VarsCarry(st, l, s1, l1, ExprVars(b));
    l2 := ExprSound(b, s1, l1);
    ExprGrows(b, s1);
    BinaryEnds(BinaryToIr(op), st, l, s1, l1, x, LowerExpr(b, s1).0, l2, LowerExpr(b, s1).1);
  }

  lemma BinaryEnds(op: Op, st: Builder, l: Layout, s1: Builder, l1: Layout, x: Operand, s2: Builder, l2: Layout,
                   y: Operand)
    requires Onward(st, l, s1, l1) && Sound(s1, l1) && s1.cur < |s1.blocks| && OperandAt(s1, l1, x, s1.cur, |s1.Code()|)
    requires Onward(s1, l1, s2, l2) && Sound(s2, l2) && s2.Ready() && OperandAt(s2, l2, y, s2.cur, |s2.Code()|)
    ensures var s3 := Produce(s2, op, [x, y]);
            && Sound(s3, l2) && Onward(st, l, s3, l2) && OperandAt(s3, l2, Value(s2.nextId), s3.cur, |s3.Code()|)
  {
    HereCarries(s1, l1, s2, l2, x);
    OnwardTrans(st, l, s1, l1, s2, l2);
    OperatorSound(st, l, s2, l2, op, [x, y]);
  }

  lemma {:induction false} AndSound(a: Source.Expr, b: Source.Expr, st: Builder, l: Layout, l1: Layout)
    returns (l2: Layout)
    requires Sound(st, l) && st.Ready() && VarsHere(st, l, ExprVars(b))
    requires var (s1, x) := LowerExpr(a, st);
             Sound(s1, l1) && Onward(st, l, s1, l1) && OperandAt(s1, l1, x, s1.cur, |s1.Code()|)
    ensures var (s1, x) := LowerExpr(a, st);
            var (fin, o) := AndRest(b, s1, x);
            && Sound(fin, l2) && Onward(st, l, fin, l2) && OperandAt(fin, l2, o, fin.cur, |fin.Code()|)
    decreases Source.LogicalAnd(a, b), 0
  {
    var (s1, x) := LowerExpr(a, st);
    ExprGrows(a, st);
    VarsCarry(st, l, s1, l1, ExprVars(b));
    l2 := AndRestSound(b, s1, l1, x);
    OnwardTrans(st, l, s1, l1, AndRest(b, s1, x).0, l2);
  }

  lemma AndStart(s1: Builder, l1: Layout, x: Operand) returns (s2: Builder, lB: Layout)
    requires Sound(s1, l1) && s1.Ready() && OperandAt(s1, l1, x, s1.cur, |s1.Code()|)
    ensures var n := |s1.blocks|;
            && s2 == Split(s1, x).(cur := n) && s2.Ready() && Sound(s2, lB) && Onward(s1, l1, s2, lB)
            && |lB.above| == n + 3
            && l1.above[s1.cur] <= lB.above[n]
            && lB.above[n + 1] == l1.above[s1.cur] + {n + 1} && lB.above[n + 2] == l1.above[s1.cur] + {n + 2}
  {
    var lA := SplitSound(s1, l1, x);
    SplitFacts(s1, x);
    SplitPreds(s1, x);
    lB := ArmStarts(s1, l1, Split(s1, x), lA, |s1.blocks|);
    s2 := Split(s1, x).(cur := |s1.blocks|);
  }

  lemma {:induction false} AndRestSound(r: Source.Expr, s1: Builder, l1: Layout, x: Operand) returns (l: Layout)
    requires Sound(s1, l1) && s1.Ready() && OperandAt(s1, l1, x, s1.cur, |s1.Code()|) && VarsHere(s1, l1, ExprVars(r))
    ensures var (fin, o) := AndRest(r, s1, x);
            && Sound(fin, l) && Onward(s1, l1, fin, l) && OperandAt(fin, l, o, fin.cur, |fin.Code()|)
    decreases r, 2
  {
    hide Holds, AndMerge, SameAt;
    var s2, lB := AndStart(s1, l1, x);
    VarsCarry(s1, l1, s2, lB, ExprVars(r));
    var lC := ExprSound(r, s2, lB);
    ExprGrows(r, s2);
    ExprFills(r, s2);
    l := AndMergeSound(s1, l1, x, s2, lB, LowerExpr(r, s2).0, lC, LowerExpr(r, s2).1);
  }

  lemma {:induction false} OrSound(a: Source.Expr, b: Source.Expr, keepsLeft: bool, st: Builder, l: Layout, l1: Layout)
    returns (l2: Layout)
    requires Sound(st, l) && st.Ready() && VarsHere(st, l, ExprVars(b))
    requires var (s1, x) := LowerExpr(a, st);
             Sound(s1, l1) && Onward(st, l, s1, l1) && OperandAt(s1, l1, x, s1.cur, |s1.Code()|)
    ensures var (s1, x) := LowerExpr(a, st);
            var (fin, o) := OrRest(b, s1, x, keepsLeft);
            && Sound(fin, l2) && Onward(st, l, fin, l2) && OperandAt(fin, l2, o, fin.cur, |fin.Code()|)
    decreases (if keepsLeft then Source.NullCoalesce(a, b) else Source.LogicalOr(a, b)), 0
  {
    var (s1, x) := LowerExpr(a, st);
    ExprGrows(a, st);
    VarsCarry(st, l, s1, l1, ExprVars(b));
    l2 := OrRestSound(b, s1, l1, x, keepsLeft);
    OnwardTrans(st, l, s1, l1, OrRest(b, s1, x, keepsLeft).0, l2);
  }

  lemma {:induction false} OrRestSound(r: Source.Expr, s1: Builder, l1: Layout, x: Operand, keepsLeft: bool)
    returns (l: Layout)
    requires Sound(s1, l1) && s1.Ready() && OperandAt(s1, l1, x, s1.cur, |s1.Code()|) && VarsHere(s1, l1, ExprVars(r))
    ensures var (fin, o) := OrRest(r, s1, x, keepsLeft);
            && Sound(fin, l) && Onward(s1, l1, fin, l) && OperandAt(fin, l, o, fin.cur, |fin.Code()|)
    decreases r, 2
  {
    hide LowerExpr;
    var s4 := OrMiddle(s1, x, keepsLeft);
    var l4 := OrMiddleSound(s1, l1, x, keepsLeft);
    OrMiddleFacts(s1, x, keepsLeft);
    VarsCarry(s1, l1, s4, l4, ExprVars(r));
    var l5 := ExprSound(r, s4, l4);
    ExprGrows(r, s4);
    ExprFills(r, s4);
    l := OrMergeSound(s1, l1, x, keepsLeft, s4, l4, LowerExpr(r, s4).0, l5, LowerExpr(r, s4).1);
  }

  // ----- statements -----

  /** What lowering a statement keeps: the rules, and the variables in scope, where control can go on. */
  ghost predicate Keeps(st: Builder, l: Layout, s1: Builder, l1: Layout, sc: Scope) {
    && Sound(s1, l1) && Below(st, l, s1, l1) && s1.loops == st.loops && l1.decl.Keys <= sc.declared
    && s1.cur < |s1.blocks| && (s1.Ready() ==> VarsHere(s1, l1, sc.visible))
  }

  /** The start of a statement. */
  ghost predicate Begins(st: Builder, l: Layout, sc: Scope) {
    Sound(st, l) && st.Ready() && LoopsIn(st) && VarsHere(st, l, sc.visible) && l.decl.Keys <= sc.declared
  }

  lemma VisibleDecl(st: Builder, l: Layout, v: Hir.Var)
    requires Sound(st, l) && st.cur < |st.blocks| && OperandAt(st, l, VarRef(v), st.cur, |st.Code()|)
    ensures st.cur < |l.above| && v in l.decl && l.decl[v] in l.above[st.cur]
  {
    assert Holds(DefsMatch, st, l);
    assert DefsAt(st, l, st.cur);
    if l.decl[v] == st.cur || l.decl[v] !in l.above[st.cur] { assert Defines(st.Code(), v); }
  }

  /** A variable gets a value: its first one where it is declared, or another where it is visible. */
  lemma BindSound(v: Hir.Var, e: Source.Expr, st: Builder, l: Layout, sc: Scope) returns (l2: Layout)
    requires Begins(st, l, sc) && ExprVars(e) <= sc.visible && (v in sc.visible || v !in sc.declared)
    ensures var (s1, o) := LowerExpr(e, st);
            Keeps(st, l, BindLocal(s1, v, o), l2, Scope(sc.visible + {v}, sc.declared + {v}))
  {
    var (s1, o) := LowerExpr(e, st);
    var l1 := ExprSound(e, st, l);
    ExprGrows(e, st);
    ExprProduces(e, st);
    VarsCarry(st, l, s1, l1, sc.visible);
    if v in sc.visible { VisibleDecl(s1, l1, v); }
    l2 := BindStep(s1, l1, v, o);
    BindKeeps(st, l, s1, l1, v, o, l2, sc);
  }

  lemma BindStep(s1: Builder, l1: Layout, v: Hir.Var, o: Operand) returns (l2: Layout)
    requires Sound(s1, l1) && Bindable(s1, l1, v, o)
    ensures var fin := BindLocal(s1, v, o);
            && l2 == Declare(s1, l1, v) && Sound(fin, l2) && Later(s1, l1, fin, l2) && fin.Ready()
            && fin.cur == s1.cur && fin.loops == s1.loops
            && DefinedBefore(fin.Code(), v, |fin.Code()|) && |s1.Code()| <= |fin.Code()|
  {
    l2 := Declare(s1, l1, v);
    if o.VarRef? { BindRefSound(s1, l1, v, o); } else { BindValueSound(s1, l1, v, o); }
  }

  lemma BindKeeps(st: Builder, l: Layout, s1: Builder, l1: Layout, v: Hir.Var, o: Operand, l2: Layout, sc: Scope)
    requires Sound(s1, l1) && s1.Ready() && Onward(st, l, s1, l1) && VarsHere(s1, l1, sc.visible)
    requires l.decl.Keys <= sc.declared
    requires var fin := BindLocal(s1, v, o);
             && l2 == Declare(s1, l1, v) && Sound(fin, l2) && Later(s1, l1, fin, l2) && fin.Ready()
             && fin.cur == s1.cur && fin.loops == s1.loops
             && DefinedBefore(fin.Code(), v, |fin.Code()|) && |s1.Code()| <= |fin.Code()|
    ensures Keeps(st, l, BindLocal(s1, v, o), l2, Scope(sc.visible + {v}, sc.declared + {v}))
  {
    var fin := BindLocal(s1, v, o);
    assert Holds(Sized, fin, l2);
    BelowTrans(st, l, s1, l1, fin, l2);
    VarsCarry(s1, l1, fin, l2, sc.visible);
  }

  lemma {:induction false} StmtSound(s: Source.Stmt, st: Builder, l: Layout, sc: Scope) returns (l2: Layout)
    requires Begins(st, l, sc) && Check(s, sc).Some? && MergesLive(s) && Accepted(s, st.loops != [])
    ensures Keeps(st, l, LowerStmt(s, st), l2, Check(s, sc).value)
    decreases s, 1
  {
    match s
    case Let(v, e) => l2 := BindSound(v, e, st, l, sc);
    case Assign(v, e) =>
      VisibleDecl(st, l, v);
      assert sc.visible + {v} == sc.visible && sc.declared + {v} == sc.declared;
      l2 := BindSound(v, e, st, l, sc);
    case Print(e) => l2 := PrintStmtSound(e, st, l, sc);
    case ExprStmt(e) => l2 := ExprStmtSound(e, st, l, sc);
    case If(c, t, els) => l2 := IfSound(c, t, els, st, l, sc);
    case While(c, b) => l2 := WhileSound(c, b, st, l, sc);
    case Block(ss) =>
      l2 := AllSound(ss, st, l, sc);
      NarrowScope(st, l, LowerAll(ss, st), l2, CheckAll(ss, sc).value, sc);
    case Break => l2 := LeaveSound(s, st, l, sc);
    case Continue => l2 := LeaveSound(s, st, l, sc);
    case Return(e) => l2 := ReturnStmtSound(e, st, l, sc);
  }

  /** At the end of a block its own variables go out of scope, and those of the block around it are still there. */
  lemma NarrowScope(st: Builder, l: Layout, s1: Builder, l1: Layout, inner: Scope, sc: Scope)
    requires Begins(st, l, sc) && Keeps(st, l, s1, l1, inner)
    ensures Keeps(st, l, s1, l1, Scope(sc.visible, inner.declared))
  {
    VarsCarry(st, l, s1, l1, sc.visible);
  }

  lemma PrintStmtSound(e: Source.Expr, st: Builder, l: Layout, sc: Scope) returns (l2: Layout)
    requires Begins(st, l, sc) && ExprVars(e) <= sc.visible
    ensures var (s1, o) := LowerExpr(e, st); Keeps(st, l, Emit(s1, Hir.Print(o)), l2, sc)
  {
    var (s1, o) := LowerExpr(e, st);
    l2 := ExprSound(e, st, l);
    ExprGrows(e, st);
    PrintSound(s1, l2, o);
    LaterTrans(st, l, s1, l2, Emit(s1, Hir.Print(o)), l2);
    VarsCarry(st, l, Emit(s1, Hir.Print(o)), l2, sc.visible);
  }

  lemma ExprStmtSound(e: Source.Expr, st: Builder, l: Layout, sc: Scope) returns (l2: Layout)
    requires Begins(st, l, sc) && ExprVars(e) <= sc.visible
    ensures Keeps(st, l, LowerExpr(e, st).0, l2, sc)
  {
    l2 := ExprSound(e, st, l);
    VarsCarry(st, l, LowerExpr(e, st).0, l2, sc.visible);
  }

  lemma ReturnStmtSound(e: Source.Expr, st: Builder, l: Layout, sc: Scope) returns (l2: Layout)
    requires Begins(st, l, sc) && ExprVars(e) <= sc.visible
    ensures var (s1, o) := LowerExpr(e, st); Keeps(st, l, SetTerm(s1, Hir.Return(Some(o))), l2, sc)
  {
    var (s1, o) := LowerExpr(e, st);
    l2 := ExprSound(e, st, l);
    ExprGrows(e, st);
    ReturnSound(s1, l2, o);
    LaterTrans(st, l, s1, l2, SetTerm(s1, Hir.Return(Some(o))), l2);
  }

  lemma LeaveSound(s: Source.Stmt, st: Builder, l: Layout, sc: Scope) returns (l2: Layout)
    requires Begins(st, l, sc) && (s.Break? || s.Continue?) && st.loops != []
    ensures Keeps(st, l, LowerStmt(s, st), l2, sc)
  {
    var loop := st.loops[|st.loops| - 1];
    var b := if s.Break? then loop.breakTarget else loop.continueTarget;
    assert Holds(Sized, st, l) && Holds(LoopsOpen, st, l);
    assert TargetAt(st, l, b);
    JumpSound(st, l, b);
    l2 := l;
  }

  lemma {:induction false} AllSound(ss: seq<Source.Stmt>, st: Builder, l: Layout, sc: Scope) returns (l2: Layout)
    requires Begins(st, l, sc) && CheckAll(ss, sc).Some? && AllMergesLive(ss)
    requires AllAccepted(ss, st.loops != [])
    ensures Keeps(st, l, LowerAll(ss, st), l2, CheckAll(ss, sc).value)
    decreases ss, 2
  {
    assert Holds(Sized, st, l);
    if ss == [] {
      LaterRefl(st, l);
      l2 := l;
    } else {
      var s1 := LowerStmt(ss[0], st);
      var sc1 := Check(ss[0], sc).value;
      var l1 := StmtSound(ss[0], st, l, sc);
      EndsIs(ss[0], st);
      if s1.Ready() {
        l2 := AllSound(ss[1..], s1, l1, sc1);
        BelowTrans(st, l, s1, l1, LowerAll(ss[1..], s1), l2);
      } else {
        l2 := l1;
        assert LowerAll(ss[1..], s1) == s1;
        DeclaredGrows(ss[1..], sc1);
      }
    }
  }

  lemma {:induction false} DeclaredGrows(ss: seq<Source.Stmt>, sc: Scope)
    requires CheckAll(ss, sc).Some?
    ensures sc.declared <= CheckAll(ss, sc).value.declared
    decreases ss, 2
  {
    if ss != [] {
      DeclaredGrowsOnce(ss[0], sc);
      DeclaredGrows(ss[1..], Check(ss[0], sc).value);
    }
  }

  lemma {:induction false} DeclaredGrowsOnce(s: Source.Stmt, sc: Scope)
    requires Check(s, sc).Some?
    ensures sc.declared <= Check(s, sc).value.declared
    decreases s, 1
  {
    match s
    case If(c, t, els) =>
      DeclaredGrowsOnce(t, sc);
      if els.Some? { DeclaredGrowsOnce(els.value, Scope(sc.visible, Check(t, sc).value.declared)); }
    case While(c, b) => DeclaredGrowsOnce(b, sc);
    case Block(ss) => DeclaredGrows(ss, sc);
    case _ =>
  }

  // ----- if -----

  /** The blocks of an `if`, all below the block it is in. */
  lemma IfBlocksSound(els: bool, st: Builder, l: Layout) returns (l1: Layout)
    requires Sound(st, l) && st.cur < |st.blocks|
    ensures var s1 := IfBlocks(els, st);
            var n := |st.blocks|;
            && Sound(s1, l1) && Onward(st, l, s1, l1) && |l1.above| == |s1.blocks|
            && l1.above[n] == l.above[st.cur] + {n} && l1.above[n + 1] == l.above[st.cur] + {n + 1}
            && (els ==> l1.above[n + 2] == l.above[st.cur] + {n + 2})
  {
    assert Holds(Sized, st, l);
    var n := |st.blocks|;
    var base := l.above[st.cur];
    if els {
      var s1;
      s1, l1 := ThreeBlocks(st, l, base + {n}, base + {n + 1}, base + {n + 2});
      assert BlockLater(st, l, s1, l1, st.cur);
    } else {
      var sA, lA := MakeBlock(st), WithBlock(l, base + {n});
      MakeBlockSound(st, l, base + {n});
      MakeBlockSound(sA, lA, base + {n + 1});
      l1 := WithBlock(lA, base + {n + 1});
      LaterTrans(st, l, sA, lA, MakeBlock(sA), l1);
    }
  }

  /** The condition has been lowered from the state with the blocks of the `if`. */
  ghost predicate IfHead(st: Builder, l: Layout, els: bool, s2: Builder, l2: Layout, x: Operand) {
    var n := |st.blocks|;
    && Sound(st, l) && st.Ready() && LoopsIn(st) && Sound(s2, l2) && s2.Ready() && Onward(st, l, s2, l2)
    && Grows(IfBlocks(els, st), s2) && Fills(IfBlocks(els, st), s2) && OperandAt(s2, l2, x, s2.cur, |s2.Code()|)
    && |IfBlocks(els, st).blocks| <= |l2.above| == |s2.blocks|
    && l2.above[n] == l.above[st.cur] + {n} && l2.above[n + 1] == l.above[st.cur] + {n + 1}
    && (els ==> l2.above[n + 2] == l.above[st.cur] + {n + 2})
  }

  lemma IfHeadSound(c: Source.Expr, els: bool, st: Builder, l: Layout, sc: Scope) returns (l2: Layout)
    requires Begins(st, l, sc) && ExprVars(c) <= sc.visible
    ensures var (s2, x) := LowerExpr(c, IfBlocks(els, st)); IfHead(st, l, els, s2, l2, x)
  {
    var s1 := IfBlocks(els, st);
    var l1 := IfBlocksSound(els, st, l);
    IfBlocksFacts(els, st);
    VarsCarry(st, l, s1, l1, ExprVars(c));
    l2 := ExprSound(c, s1, l1);
    ExprGrows(c, s1);
    ExprFills(c, s1);
    IfAboveCarries(els, st, l, l1, LowerExpr(c, s1).0, l2);
  }

  lemma IfAboveCarries(els: bool, st: Builder, l: Layout, l1: Layout, s2: Builder, l2: Layout)
    requires var n := |st.blocks|;
             var s1 := IfBlocks(els, st);
             && Onward(st, l, s1, l1) && |l1.above| == |s1.blocks| && Onward(s1, l1, s2, l2)
             && l1.above[n] == l.above[st.cur] + {n} && l1.above[n + 1] == l.above[st.cur] + {n + 1}
             && (els ==> l1.above[n + 2] == l.above[st.cur] + {n + 2})
    ensures var n := |st.blocks|;
            && Onward(st, l, s2, l2) && |l1.above| <= |l2.above|
            && l2.above[n] == l.above[st.cur] + {n} && l2.above[n + 1] == l.above[st.cur] + {n + 1}
            && (els ==> l2.above[n + 2] == l.above[st.cur] + {n + 2})
  {
    var n := |st.blocks|;
    OnwardTrans(st, l, IfBlocks(els, st), l1, s2, l2);
    assert BlockLater(IfBlocks(els, st), l1, s2, l2, n) && BlockLater(IfBlocks(els, st), l1, s2, l2, n + 1);
    if els { assert BlockLater(IfBlocks(els, st), l1, s2, l2, n + 2); }
  }

  /** The branch into the then arm. */
  lemma ThenSound(st: Builder, l: Layout, els: bool, s2: Builder, l2: Layout, x: Operand) returns (l3: Layout)
    requires IfHead(st, l, els, s2, l2, x)
    ensures var s3 := ThenArm(els, s2, x, |st.blocks|);
            && Sound(s3, l3) && Below(st, l, s3, l3) && l3.decl == l.decl && l3.above == l2.above
            && InArm(st, els, s3, 0) && s3.Ready()
  {
    var n := |st.blocks|;
    var e := if els then n + 2 else n + 1;
    IfBlocksFacts(els, st);
    var s1 := IfBlocks(els, st);
    assert SameAt(s1.blocks, s2.blocks, n) && SameAt(s1.blocks, s2.blocks, n + 1);
    if els { assert SameAt(s1.blocks, s2.blocks, n + 2); }
    BranchSound(s2, l2, x, n, e);
    var sB := BranchTo(s2, x, n, e);
    LaterTrans(st, l, s2, l2, sB, l2);
    ThenFacts(st, els, s2, x);
    ThenEdges(els, st, s2, x);
    l3 := ArmStarts(st, l, sB, l2, n);
  }

  /** An arm of an `if`, or a loop body, made in st: it started in s3 and its lowering ended in a. */
  ghost predicate InArmOf(st: Builder, l: Layout, s3: Builder, l3: Layout, a: Builder, la: Layout) {
    && Sound(st, l) && st.Ready() && s3.Ready() && Below(st, l, s3, l3) && |s3.blocks| == |l3.above|
    && Sound(a, la) && a.cur < |a.blocks| && Below(s3, l3, a, la) && Grows(s3, a)
    && |st.loops| <= |a.loops| && forall i :: 0 <= i < |st.loops| ==> a.loops[i] == st.loops[i]
  }

  lemma ArmJumps(a: Builder, la: Layout, m: nat)
    requires Sound(a, la) && a.cur < |a.blocks| && m < |a.blocks| && (a.Ready() ==> CanEnter(a, la, m))
    ensures Sound(JumpUnlessDone(a, m), la) && Later(a, la, JumpUnlessDone(a, m), la)
  {
    assert Holds(Sized, a, la);
    if a.Ready() { JumpSound(a, la, m); } else { LaterRefl(a, la); }
  }

  /** At the end of an arm control goes to m, unless it has gone elsewhere, and lowering goes on at p. */
  lemma ArmEndsSound(st: Builder, l: Layout, s3: Builder, l3: Layout, a: Builder, la: Layout, m: nat, p: nat)
    returns (l4: Layout)
    requires InArmOf(st, l, s3, l3, a, la) && m < |s3.blocks| && (a.Ready() ==> CanEnter(a, la, m))
    requires |st.blocks| <= p < |s3.blocks| && p != s3.cur && SameBody(EMPTY, s3.blocks[p])
    requires l.above[st.cur] <= l3.above[p]
    requires JumpUnlessDone(a, m).blocks[p].preds != []
    ensures var s := JumpUnlessDone(a, m).(cur := p, loops := st.loops);
            Sound(s, l4) && Below(st, l, s, l4) && l4.above == la.above && l4.decl == la.decl
  {
    var s := JumpUnlessDone(a, m);
    ArmJumps(a, la, m);
    JumpUnlessDoneFacts(a, m);
    assert SameAt(s3.blocks, a.blocks, p);
    assert SameAt(a.blocks, s.blocks, p);
    assert BlockLater(s3, l3, a, la, p);
    LaterTrans(st, l, s3, l3, a, la);
    LaterTrans(st, l, a, la, s, la);
    assert Holds(Sized, s, la);
    l4 := ArmStarts(st, l, s, la, p);
  }

  lemma MergeCanEnter(st: Builder, l: Layout, s3: Builder, l3: Layout, a: Builder, la: Layout, m: nat)
    requires InArmOf(st, l, s3, l3, a, la) && 0 < m < |s3.blocks| && m != s3.cur && SameBody(EMPTY, s3.blocks[m])
    requires l3.above[m] == l.above[st.cur] + {m}
    ensures CanEnter(a, la, m)
  {
    assert SameAt(s3.blocks, a.blocks, m);
    assert BlockLater(s3, l3, a, la, m);
  }

  /** From the end of the then arm to the else arm, or to the merge block when there is none. */
  lemma ThenEndsSound(st: Builder, l: Layout, els: bool, s2: Builder, l2: Layout, x: Operand, s3: Builder,
                      l3: Layout, a: Builder, la: Layout)
    returns (l5: Layout)
    requires IfHead(st, l, els, s2, l2, x) && s3 == ThenArm(els, s2, x, |st.blocks|) && InArm(st, els, s3, 0)
    requires l3.above == l2.above && InArmOf(st, l, s3, l3, a, la) && a.loops == st.loops
    requires ThenDone(st, els, s2.cur, a,
                      JumpUnlessDone(a, |st.blocks| + 1).(cur := if els then |st.blocks| + 2 else |st.blocks| + 1))
    ensures var n := |st.blocks|;
            var s5 := JumpUnlessDone(a, n + 1).(cur := if els then n + 2 else n + 1);
            Sound(s5, l5) && Below(st, l, s5, l5) && l5.above == la.above && l5.decl == la.decl
  {
    hide ThenArm, JumpUnlessDone;
    var n := |st.blocks|;
    MergeCanEnter(st, l, s3, l3, a, la, n + 1);
    l5 := ArmEndsSound(st, l, s3, l3, a, la, n + 1, if els then n + 2 else n + 1);
  }

  /** From the end of the else arm to the merge block. */
  lemma ElseEndsSound(st: Builder, l: Layout, s3: Builder, l3: Layout, a: Builder, la: Layout, s5: Builder,
                      l5: Layout, b: Builder, lb: Layout)
    returns (l6: Layout)
    requires InArmOf(st, l, s3, l3, a, la) && InArm(st, true, s3, 0) && s3.cur == |st.blocks|
    requires l3.above[|st.blocks| + 1] == l.above[st.cur] + {|st.blocks| + 1}
    requires s5 == JumpUnlessDone(a, |st.blocks| + 1).(cur := |st.blocks| + 2) && l5.above == la.above
    requires InArmOf(st, l, s5, l5, b, lb) && JumpUnlessDone(b, |st.blocks| + 1).blocks[|st.blocks| + 1].preds != []
    ensures var n := |st.blocks|;
            var fin := JumpUnlessDone(b, n + 1).(cur := n + 1, loops := st.loops);
            Sound(fin, l6) && Below(st, l, fin, l6) && l6.decl == lb.decl
  {
    var n := |st.blocks|;
    ArmEnds(st, true, s3, a, 0);
    assert BlockLater(s3, l3, a, la, n + 1);
    MergeCanEnter(st, l, s5, l5, b, lb, n + 1);
    l6 := ArmEndsSound(st, l, s5, l5, b, lb, n + 1, n + 1);
  }

  lemma {:induction false} IfSound(c: Source.Expr, t: Source.Stmt, els: Option<Source.Stmt>, st: Builder, l: Layout,
                                   sc: Scope)
    returns (lf: Layout)
    requires Begins(st, l, sc) && Check(Source.If(c, t, els), sc).Some? && MergesLive(Source.If(c, t, els))
    requires Accepted(Source.If(c, t, els), st.loops != [])
    ensures Keeps(st, l, LowerIf(c, t, els, st), lf, Check(Source.If(c, t, els), sc).value)
    decreases Source.If(c, t, els), 0
  {
    hide LowerExpr, LowerStmt, LowerArm, ThenDone, ThenArm, IfHead, IfBlocks, InArmOf, ExprVars, LoopsIn, LowerElse,
         VarsHere;
    var p := IfIsSteps(c, t, els, st);
    IfFillsAll(c, t, els, p);
    var l2 := IfHeadSound(c, els.Some?, st, l, sc);
    var sc1 := Scope(sc.visible, Check(t, sc).value.declared);
    var l3, la, l5 := ThenArmSound(t, st, l, els.Some?, p.ready, l2, p.cond, p.inThen, p.afterThen, p.inElse, sc);
    if els.Some? {
      lf := ElseArmSound(els.value, st, l, p.inThen, l3, p.afterThen, la, p.inElse, l5, sc1);
    } else {
      lf := l5;
    }
  }

  /** The then arm has been lowered from s3 to a, and what follows it starts in s5. */
  ghost predicate ThenPart(st: Builder, l: Layout, els: bool, s3: Builder, l3: Layout, a: Builder, la: Layout,
                           s5: Builder, l5: Layout, sc: Scope) {
    && InArmOf(st, l, s3, l3, a, la) && InArm(st, els, s3, 0) && s3.cur == |st.blocks|
    && l3.above[|st.blocks| + 1] == l.above[st.cur] + {|st.blocks| + 1} && l5.above == la.above
    && Sound(s5, l5) && Below(st, l, s5, l5) && s5.cur < |s5.blocks| && VarsHere(s5, l5, sc.visible)
    && l5.decl.Keys <= sc.declared
  }

  lemma {:induction false} ThenArmSound(t: Source.Stmt, st: Builder, l: Layout, els: bool, s2: Builder, l2: Layout,
                                        x: Operand,
                                        s3: Builder, a: Builder, s5: Builder, sc: Scope)
    returns (l3: Layout, la: Layout, l5: Layout)
    requires Begins(st, l, sc) && IfHead(st, l, els, s2, l2, x) && s3 == ThenArm(els, s2, x, |st.blocks|)
    requires LoopsIn(s3) && s3.loops == st.loops && a == LowerStmt(t, s3) && ThenDone(st, els, s2.cur, a, s5)
    requires s5 == JumpUnlessDone(a, |st.blocks| + 1).(cur := if els then |st.blocks| + 2 else |st.blocks| + 1)
    requires Check(t, sc).Some? && MergesLive(t) && Accepted(t, st.loops != [])
    ensures ThenPart(st, l, els, s3, l3, a, la, s5, l5, Scope(sc.visible, Check(t, sc).value.declared))
    decreases t, 2
  {
    hide LowerExpr, LowerStmt, JumpUnlessDone;
    l3 := ThenSound(st, l, els, s2, l2, x);
    VarsCarry(st, l, s3, l3, sc.visible);
    la := StmtSound(t, s3, l3, sc);
    StmtGrows(t, s3);
    l5 := ThenEndsSound(st, l, els, s2, l2, x, s3, l3, a, la);
    VarsCarry(st, l, s5, l5, sc.visible);
  }

  lemma {:induction false} ElseArmSound(e: Source.Stmt, st: Builder, l: Layout, s3: Builder, l3: Layout, a: Builder,
                                        la: Layout,
                                        s5: Builder, l5: Layout, sc: Scope) returns (lf: Layout)
    requires ThenPart(st, l, true, s3, l3, a, la, s5, l5, sc) && s5.Ready() && LoopsIn(s5) && s5.loops == st.loops
    requires s5 == JumpUnlessDone(a, |st.blocks| + 1).(cur := |st.blocks| + 2) && VarsHere(st, l, sc.visible)
    requires Check(e, sc).Some? && MergesLive(e) && Accepted(e, st.loops != [])
    requires JumpUnlessDone(LowerStmt(e, s5), |st.blocks| + 1).blocks[|st.blocks| + 1].preds != []
    ensures var fin := JumpUnlessDone(LowerStmt(e, s5), |st.blocks| + 1).(cur := |st.blocks| + 1);
            Keeps(st, l, fin, lf, Scope(sc.visible, Check(e, sc).value.declared))
    decreases e, 2
  {
    var b := LowerStmt(e, s5);
    var lb := StmtSound(e, s5, l5, sc);
    StmtGrows(e, s5);
    lf := ElseEndsSound(st, l, s3, l3, a, la, s5, l5, b, lb);
    VarsCarry(st, l, JumpUnlessDone(b, |st.blocks| + 1).(cur := |st.blocks| + 1), lf, sc.visible);
  }

  /** The edges of an `if` once it has been lowered; its merge block has a predecessor unless both arms leave. */
  lemma IfFillsAll(c: Source.Expr, t: Source.Stmt, els: Option<Source.Stmt>, p: IfStates)
    requires IfSteps(p) && LoopsIn(p.before) && p.hasElse == els.Some?
    requires (p.ready, p.cond) == LowerExpr(c, IfBlocks(p.hasElse, p.before))
    requires LoopsIn(p.inThen) && p.inThen.loops == p.before.loops && p.afterThen == LowerStmt(t, p.inThen)
    requires els.Some? ==> LoopsIn(p.inElse) && p.inElse.loops == p.before.loops
    requires els.Some? ==> p.afterElse == LowerStmt(els.value, p.inElse)
    requires Accepted(Source.If(c, t, els), p.before.loops != [])
    ensures p.inThen.Ready() && p.inElse.Ready() && p.done.Ready() && p.done.cur == |p.before.blocks| + 1
    ensures ThenDone(p.before, p.hasElse, p.ready.cur, p.afterThen, p.inElse)
    ensures p.done.blocks[|p.before.blocks| + 1].preds == [] <==> els.Some? && Ends(t) && Ends(els.value)
  {
    hide LowerExpr, LowerStmt, ThenArm, Fills;
    IfReady(p);
    IfBlocksFacts(p.hasElse, p.before);
    ExprFills(c, IfBlocks(p.hasElse, p.before));
    ThenEdges(p.hasElse, p.before, p.ready, p.cond);
    StmtFills(t, p.inThen);
    EndsIs(t, p.inThen);
    if els.Some? {
      StmtFills(els.value, p.inElse);
      EndsIs(els.value, p.inElse);
    }
    IfStepsFill(p);
  }

  // ----- while -----

  /** The blocks of a loop: the condition is below the block the loop is in, body and exit below the condition. */
  ghost predicate LoopAbove(st: Builder, l: Layout, l1: Layout)
    requires st.cur < |l.above|
  {
    var n := |st.blocks|;
    var base := l.above[st.cur];
    && n + 3 <= |l1.above| && l1.above[n] == base + {n} && l1.above[n + 1] == base + {n, n + 1}
    && l1.above[n + 2] == base + {n, n + 2}
  }

  lemma LoopStart(st: Builder, l: Layout) returns (l1: Layout)
    requires Sound(st, l) && st.Ready()
    ensures var s1 := WhileBlocks(st);
            && Sound(s1, l1) && Below(st, l, s1, l1) && l1.decl == l.decl && LoopAbove(st, l, l1)
            && |l1.above| == |s1.blocks|
  {
    assert Holds(Sized, st, l);
    var n := |st.blocks|;
    var base := l.above[st.cur];
    var sA, lA := ThreeBlocks(st, l, base + {n}, base + {n, n + 1}, base + {n, n + 2});
    assert BlockLater(st, l, sA, lA, st.cur);
    JumpSound(sA, lA, n);
    var sB := JumpTo(sA, n);
    LaterTrans(st, l, sA, lA, sB, lA);
    WhileBlocksEdges(st);
    WhileBlocksFacts(st);
    l1 := ArmStarts(st, l, sB, lA, n);
  }

  /** The condition of a loop has been lowered. */
  ghost predicate LoopHeadSound(st: Builder, l: Layout, s1: Builder, s2: Builder, l2: Layout, x: Operand) {
    && Sound(st, l) && st.Ready() && LoopsIn(st) && s1 == WhileBlocks(st) && Grows(s1, s2) && Fills(s1, s2)
    && Sound(s2, l2) && s2.Ready() && Below(st, l, s2, l2) && l2.decl == l.decl && s2.loops == st.loops
    && LoopAbove(st, l, l2) && |l2.above| == |s2.blocks|
    && l2.above[|st.blocks|] <= l2.above[s2.cur] && OperandAt(s2, l2, x, s2.cur, |s2.Code()|)
  }

  lemma ConditionSound(c: Source.Expr, st: Builder, l: Layout, sc: Scope) returns (l2: Layout)
    requires Begins(st, l, sc) && ExprVars(c) <= sc.visible
    ensures var s1 := WhileBlocks(st);
            LoopHeadSound(st, l, s1, LowerExpr(c, s1).0, l2, LowerExpr(c, s1).1)
  {
    var n := |st.blocks|;
    var s1 := WhileBlocks(st);
    var l1 := LoopStart(st, l);
    WhileBlocksFacts(st);
    VarsCarry(st, l, s1, l1, ExprVars(c));
    l2 := ExprSound(c, s1, l1);
    ExprGrows(c, s1);
    ExprFills(c, s1);
    var s2 := LowerExpr(c, s1).0;
    AboveCarries(st, l, s1, l1, s2, l2);
  }

  lemma AboveCarries(st: Builder, l: Layout, s1: Builder, l1: Layout, s2: Builder, l2: Layout)
    requires Below(st, l, s1, l1) && Below(s1, l1, s2, l2) && LoopAbove(st, l, l1) && |l1.above| == |s1.blocks|
    ensures Below(st, l, s2, l2) && LoopAbove(st, l, l2)
  {
    var n := |st.blocks|;
    BelowTrans(st, l, s1, l1, s2, l2);
    assert BlockLater(s1, l1, s2, l2, n) && BlockLater(s1, l1, s2, l2, n + 1) && BlockLater(s1, l1, s2, l2, n + 2);
  }

  /** The branch into the body; from now on the loop can be left and started again. */
  lemma BodyStart(st: Builder, l: Layout, s1: Builder, s2: Builder, l2: Layout, x: Operand) returns (l3: Layout)
    requires LoopHeadSound(st, l, s1, s2, l2, x)
    ensures var s3 := WhileBody(s2, x, |st.blocks|);
            && Sound(s3, l3) && Below(st, l, s3, l3) && l3.decl == l.decl && l3.above == l2.above
  {
    hide BlockLater, OperandAt, WhileBlocks, LoopEdges;
    var n := |st.blocks|;
    WhileBlocksFacts(st);
    var sB := BranchTo(s2, x, n + 1, n + 2);
    BodyBranch(st, l, s1, s2, l2, x);
    BodyEdges(st, s2, x);
    BodyReach(st, l, s1, s2, l2, x, sB);
    MoveSound(sB, l2, n + 1, st.loops + [Loop(n, n + 2)]);
    l3 := StartAt(sB, l2, n + 1);
    LaterTrans(st, l, sB, l2, WhileBody(s2, x, n), l3);
  }

  lemma BodyBranch(st: Builder, l: Layout, s1: Builder, s2: Builder, l2: Layout, x: Operand)
    requires LoopHeadSound(st, l, s1, s2, l2, x) && s1.cur == |st.blocks|
    requires SameBody(EMPTY, s1.blocks[|st.blocks| + 1]) && SameBody(EMPTY, s1.blocks[|st.blocks| + 2])
    ensures var sB := BranchTo(s2, x, |st.blocks| + 1, |st.blocks| + 2);
            && Sound(sB, l2) && Later(st, l, sB, l2) && sB.Terminated() && |sB.blocks| == |l2.way|
            && !Started(sB, |st.blocks| + 1)
  {
    var n := |st.blocks|;
    assert SameAt(s1.blocks, s2.blocks, n + 1) && SameAt(s1.blocks, s2.blocks, n + 2);
    BranchSound(s2, l2, x, n + 1, n + 2);
    var sB := BranchTo(s2, x, n + 1, n + 2);
    BranchTouches(s2, x, n + 1, n + 2);
    assert SameAt(s2.blocks, sB.blocks, n + 1);
    LaterTrans(st, l, s2, l2, sB, l2);
    assert Holds(Sized, sB, l2);
  }

  lemma BodyReach(st: Builder, l: Layout, s1: Builder, s2: Builder, l2: Layout, x: Operand, sB: Builder)
    requires LoopHeadSound(st, l, s1, s2, l2, x) && sB == BranchTo(s2, x, |st.blocks| + 1, |st.blocks| + 2)
    requires Sound(sB, l2)
    requires s1.cur == |st.blocks| && s1.Code() == [] && SameBody(EMPTY, s1.blocks[|st.blocks| + 2])
    ensures LoopsReach(sB, st.loops + [Loop(|st.blocks|, |st.blocks| + 2)], l2, |st.blocks| + 1)
  {
    hide Connect, BranchTo, OperandAt;
    var n := |st.blocks|;
    var loops := st.loops + [Loop(n, n + 2)];
    BranchTouches(s2, x, n + 1, n + 2);
    assert SameAt(s1.blocks, s2.blocks, n + 2);
    assert SameAt(s2.blocks, sB.blocks, n + 2);
    assert PhiFree(sB.blocks[n].code, 0) by { if s2.cur != n { assert SameAt(s2.blocks, sB.blocks, n); } }
    assert ReachAt(sB, l2, n, n + 1) && ReachAt(sB, l2, n + 2, n + 1);
    assert Holds(LoopsOpen, st, l) && Holds(LoopsOpen, sB, l2);
    forall i | 0 <= i < |loops|
      ensures ReachAt(sB, l2, loops[i].continueTarget, n + 1) && ReachAt(sB, l2, loops[i].breakTarget, n + 1)
    {
      if i < |st.loops| {
        assert loops[i] == st.loops[i];
        assert TargetAt(st, l, loops[i].continueTarget) && TargetAt(st, l, loops[i].breakTarget);
        assert BlockLater(st, l, s2, l2, loops[i].continueTarget) && BlockLater(st, l, s2, l2, loops[i].breakTarget);
        assert TargetAt(sB, l2, sB.loops[i].continueTarget) && TargetAt(sB, l2, sB.loops[i].breakTarget);
      }
    }
  }

  lemma {:induction false} WhileSound(c: Source.Expr, b: Source.Stmt, st: Builder, l: Layout, sc: Scope)
    returns (lf: Layout)
    requires Begins(st, l, sc) && Check(Source.While(c, b), sc).Some? && MergesLive(b) && Accepted(b, true)
    ensures Keeps(st, l, LowerWhile(c, b, st), lf, Check(Source.While(c, b), sc).value)
    decreases Source.While(c, b), 0
  {
    hide LowerExpr, LowerStmt, LowerArm, WhileStart;
    var p := WhileIsSteps(c, b, st);
    WhileReady(p);
    var l2 := ConditionSound(c, st, l, sc);
    lf := LoopSound(b, st, l, p.inCond, p.ready, l2, p.cond, p.inBody, sc);
  }

  /** A loop from the end of its condition. */
  lemma {:induction false} LoopSound(b: Source.Stmt, st: Builder, l: Layout, s1: Builder, s2: Builder, l2: Layout,
                                     x: Operand, s3: Builder, sc: Scope)
    returns (lf: Layout)
    requires Begins(st, l, sc) && LoopHeadSound(st, l, s1, s2, l2, x) && s3 == WhileBody(s2, x, |st.blocks|)
    requires s3.Ready() && LoopsIn(s3)
    requires Check(b, sc).Some? && MergesLive(b) && Accepted(b, true)
    ensures var fin := JumpUnlessDone(LowerStmt(b, s3), |st.blocks|).(cur := |st.blocks| + 2, loops := st.loops);
            Keeps(st, l, fin, lf, Scope(sc.visible, Check(b, sc).value.declared))
    decreases b, 3
  {
    var a := LowerStmt(b, s3);
    var l3, la := BodySound(b, st, l, s1, s2, l2, x, s3, sc);
    LoopExitEdges(b, st, s1, s2, x, s3, a);
    lf := LoopEndSound(st, l, s1, s2, l2, x, s3, l3, a, la);
    VarsCarry(st, l, JumpUnlessDone(a, |st.blocks|).(cur := |st.blocks| + 2, loops := st.loops), lf, sc.visible);
  }

  lemma {:induction false} BodySound(b: Source.Stmt, st: Builder, l: Layout, s1: Builder, s2: Builder, l2: Layout,
                                     x: Operand, s3: Builder, sc: Scope)
    returns (l3: Layout, la: Layout)
    requires Begins(st, l, sc) && LoopHeadSound(st, l, s1, s2, l2, x) && s3 == WhileBody(s2, x, |st.blocks|)
    requires s3.Ready() && LoopsIn(s3)
    requires Check(b, sc).Some? && MergesLive(b) && Accepted(b, true)
    ensures InArmOf(st, l, s3, l3, LowerStmt(b, s3), la) && LowerStmt(b, s3).loops == s3.loops && l3.above == l2.above
    ensures la.decl.Keys <= Check(b, sc).value.declared
    decreases b, 2
  {
    l3 := BodyStart(st, l, s1, s2, l2, x);
    VarsCarry(st, l, s3, l3, sc.visible);
    la := StmtSound(b, s3, l3, sc);
    StmtGrows(b, s3);
  }

  lemma LoopExitEdges(b: Source.Stmt, st: Builder, s1: Builder, s2: Builder, x: Operand, s3: Builder, a: Builder)
    requires st.Ready() && LoopsIn(st) && s1 == WhileBlocks(st) && Grows(s1, s2) && Fills(s1, s2) && s2.Ready()
    requires s3 == WhileBody(s2, x, |st.blocks|) && s3.Ready() && LoopsIn(s3) && a == LowerStmt(b, s3)
    ensures JumpUnlessDone(a, |st.blocks|).blocks[|st.blocks| + 2].preds != []
  {
    StmtGrows(b, s3);
    StmtFills(b, s3);
    BodyEdges(st, s2, x);
    LoopFills(st, s2.cur, s3, a);
  }

  lemma LoopEndSound(st: Builder, l: Layout, s1: Builder, s2: Builder, l2: Layout, x: Operand, s3: Builder,
                     l3: Layout, a: Builder, la: Layout)
    returns (lf: Layout)
    requires LoopHeadSound(st, l, s1, s2, l2, x) && s3 == WhileBody(s2, x, |st.blocks|) && l3.above == l2.above
    requires InArmOf(st, l, s3, l3, a, la) && a.loops == s3.loops
    requires JumpUnlessDone(a, |st.blocks|).blocks[|st.blocks| + 2].preds != []
    ensures var fin := JumpUnlessDone(a, |st.blocks|).(cur := |st.blocks| + 2, loops := st.loops);
            Sound(fin, lf) && Below(st, l, fin, lf) && lf.decl == la.decl
  {
    hide Later, WhileBody;
    var n := |st.blocks|;
    WhileBlocksFacts(st);
    WhileBodyFacts(s1, s2, x, n);
    assert SameAt(s1.blocks, s3.blocks, n + 2);
    assert Holds(LoopsOpen, a, la);
    assert a.loops[|st.loops|] == Loop(n, n + 2);
    assert TargetAt(a, la, n);
    lf := ArmEndsSound(st, l, s3, l3, a, la, n, n + 2);
  }
}
