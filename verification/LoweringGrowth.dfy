/** Lowering only adds: what has been built so far survives in everything built later. */
module LoweringGrowth {
  import opened Wrappers
  import opened Hir
  import opened Lowering
  import Source

  ghost predicate PhiFree(code: seq<Instr>, k: nat) {
    forall i :: k <= i < |code| ==> !code[i].Phi?
  }

  /** Block x has only been appended to, and not by phis. */
  ghost predicate Appended(x: Draft, y: Draft) {
    |x.code| <= |y.code| && (forall i :: 0 <= i < |x.code| ==> y.code[i] == x.code[i]) && PhiFree(y.code, |x.code|)
  }

  ghost predicate SameBody(x: Draft, y: Draft) {
    y.code == x.code && y.term == x.term && y.defs == x.defs
  }

  ghost predicate SameAt(a: seq<Draft>, b: seq<Draft>, i: nat) {
    i < |a| && i < |b| && SameBody(a[i], b[i])
  }

  /** Blocks outside t are as they were. */
  ghost predicate Untouched(a: Builder, b: Builder, t: set<nat>) {
    && |a.blocks| <= |b.blocks|
    && forall i: nat :: i < |a.blocks| && i !in t ==> SameAt(a.blocks, b.blocks, i)
  }

  lemma UntouchedTrans(a: Builder, b: Builder, c: Builder, t: set<nat>, u: set<nat>)
    requires Untouched(a, b, t) && Untouched(b, c, u)
    requires forall i :: i in u ==> i in t || i >= |a.blocks|
    ensures Untouched(a, c, t)
  {
    forall i: nat | i < |a.blocks| && i !in t ensures SameAt(a.blocks, c.blocks, i) {
      assert SameAt(a.blocks, b.blocks, i);
      assert SameAt(b.blocks, c.blocks, i);
    }
  }

  /** From a to b: finished blocks and blocks not yet started are untouched, the current one is appended to
      and is either finished or still current. */
  ghost predicate Grows(a: Builder, b: Builder) {
    && a.cur < |a.blocks| <= |b.blocks| && b.cur < |b.blocks| && a.nextId <= b.nextId && b.loops == a.loops
    && (forall i: nat :: i < |a.blocks| && i != a.cur ==> SameAt(a.blocks, b.blocks, i))
    && Appended(a.blocks[a.cur], b.blocks[a.cur])
    && (b.blocks[a.cur].term.Some? || b.cur == a.cur)
    && (b.cur == a.cur || b.cur >= |a.blocks|)
  }

  lemma GrowsRefl(a: Builder)
    requires a.Ready()
    ensures Grows(a, a)
  {
  }

  lemma AppendedTrans(x: Draft, y: Draft, z: Draft)
    requires Appended(x, y) && Appended(y, z)
    ensures Appended(x, z)
  {
  }

  lemma GrowsTrans(a: Builder, b: Builder, c: Builder)
    requires a.Ready() && Grows(a, b) && b.Ready() && Grows(b, c)
    ensures Grows(a, c)
  {
    if b.cur == a.cur {
      AppendedTrans(a.blocks[a.cur], b.blocks[a.cur], c.blocks[a.cur]);
    } else {
      assert SameAt(b.blocks, c.blocks, a.cur);
    }
    forall i: nat | i < |a.blocks| && i != a.cur ensures SameAt(a.blocks, c.blocks, i) {
      assert SameAt(a.blocks, b.blocks, i);
      assert SameAt(b.blocks, c.blocks, i);
    }
  }

  lemma EmitGrows(st: Builder, i: Instr)
    requires st.Ready() && !i.Phi?
    ensures Grows(st, Emit(st, i)) && Emit(st, i).Ready()
  {
  }

  lemma ProduceGrows(st: Builder, op: Op, args: seq<Operand>)
    requires st.Ready()
    ensures Grows(st, Produce(st, op, args)) && Produce(st, op, args).Ready()
  {
  }

  lemma JumpTouches(st: Builder, b: nat)
    requires st.cur < |st.blocks| && b < |st.blocks|
    ensures var s := JumpTo(st, b);
            && Untouched(st, s, {st.cur}) && |s.blocks| == |st.blocks|
            && s.cur == st.cur && s.nextId == st.nextId && s.loops == st.loops
            && s.blocks[st.cur].code == st.blocks[st.cur].code && s.blocks[st.cur].term == Some(Jump(b))
  {
  }

  lemma MergeTouches(st: Builder, m: nat, p: nat, x: Operand, q: nat, y: Operand)
    requires m < |st.blocks|
    ensures var (s, o) := Merge(st, m, p, x, q, y);
            && Untouched(st, s, {m}) && |s.blocks| == |st.blocks|
            && s.cur == m && s.nextId == st.nextId + 1 && s.loops == st.loops && o == Value(st.nextId)
            && s.blocks[m].code == st.blocks[m].code + [Phi(st.nextId, [Incoming(p, x), Incoming(q, y)], None, None)]
            && s.blocks[m].term == st.blocks[m].term
  {
  }

  // ----- expressions -----

  lemma {:induction false} ExprGrows(e: Source.Expr, st: Builder)
    requires st.Ready()
    ensures Grows(st, LowerExpr(e, st).0) && LowerExpr(e, st).0.Ready()
    decreases e, 0
  {
    match e
    case Literal(c) => ProduceGrows(st, ConstInt(c.Word()), []);
    case Variable(v) => GrowsRefl(st);
    case Binary(op, l, r) =>
      ExprGrows(l, st);
      var (s1, x) := LowerExpr(l, st);
      ExprGrows(r, s1);
      var (s2, y) := LowerExpr(r, s1);
      ProduceGrows(s2, BinaryToIr(op), [x, y]);
      GrowsTrans(st, s1, s2);
      GrowsTrans(st, s2, LowerExpr(e, st).0);
    case Unary(op, a) =>
      ExprGrows(a, st);
      var (s1, x) := LowerExpr(a, st);
      ProduceGrows(s1, UnaryToIr(op), [x]);
      GrowsTrans(st, s1, LowerExpr(e, st).0);
    case LogicalAnd(l, r) =>
      ExprGrows(l, st);
      var (s1, x) := LowerExpr(l, st);
      AndGrows(r, s1, x);
      GrowsTrans(st, s1, LowerExpr(e, st).0);
    case LogicalOr(l, r) =>
      ExprGrows(l, st);
      var (s1, x) := LowerExpr(l, st);
      OrGrows(r, s1, x, false);
      GrowsTrans(st, s1, LowerExpr(e, st).0);
    case NullCoalesce(l, r) =>
      ExprGrows(l, st);
      var (s1, x) := LowerExpr(l, st);
      OrGrows(r, s1, x, true);
      GrowsTrans(st, s1, LowerExpr(e, st).0);
  }

  /** s is s1 with its current block ended by a branch on x, and three blocks made after it. */
  ghost predicate IsSplit(s1: Builder, x: Operand, s: Builder)
    requires s1.cur < |s1.blocks|
  {
    var n := |s1.blocks|;
    && |s.blocks| == n + 3 && s.loops == s1.loops
    && s.blocks[s1.cur].code == s1.Code() && s.blocks[s1.cur].term == Some(Branch(x, n, n + 1))
    && Untouched(s1, s, {s1.cur})
  }

  lemma SplitFacts(s1: Builder, x: Operand)
    requires s1.Ready()
    ensures var n := |s1.blocks|;
            var s := Split(s1, x);
            && IsSplit(s1, x, s) && s.nextId == s1.nextId && s.cur == s1.cur
            && SameBody(EMPTY, s.blocks[n]) && SameBody(EMPTY, s.blocks[n + 1]) && SameBody(EMPTY, s.blocks[n + 2])
  {
  }

  /** Between two states that agree on the blocks a had, finished with a's block, growth is immediate. */
  lemma GrowsWhen(a: Builder, b: Builder)
    requires a.Ready() && |a.blocks| <= b.cur < |b.blocks| && a.nextId <= b.nextId && b.loops == a.loops
    requires Untouched(a, b, {a.cur})
    requires b.blocks[a.cur].code == a.blocks[a.cur].code && b.blocks[a.cur].term.Some?
    ensures Grows(a, b)
  {
  }

  /** Finishing a's block and then working only on the three blocks made after it. */
  lemma DetourGrows(a: Builder, s: Builder, b: Builder)
    requires a.Ready() && |a.blocks| <= b.cur < |b.blocks| && a.nextId <= b.nextId && b.loops == a.loops
    requires Untouched(a, s, {a.cur}) && Untouched(s, b, {|a.blocks|, |a.blocks| + 1, |a.blocks| + 2})
    requires s.blocks[a.cur].code == a.blocks[a.cur].code && s.blocks[a.cur].term.Some?
    ensures Grows(a, b)
  {
    UntouchedTrans(a, s, b, {a.cur}, {|a.blocks|, |a.blocks| + 1, |a.blocks| + 2});
    assert SameAt(s.blocks, b.blocks, a.cur);
    GrowsWhen(a, b);
  }

  lemma {:induction false} AndGrows(r: Source.Expr, s1: Builder, x: Operand)
    requires s1.Ready()
    ensures Grows(s1, AndRest(r, s1, x).0) && AndRest(r, s1, x).0.Ready()
    decreases r, 1
  {
    var n := |s1.blocks|;
    SplitFacts(s1, x);
    ExprGrows(r, Split(s1, x).(cur := n));
    AndMergeGrows(s1, x, LowerExpr(r, Split(s1, x).(cur := n)).0, LowerExpr(r, Split(s1, x).(cur := n)).1);
  }

  lemma AndMergeGrows(s1: Builder, x: Operand, s3: Builder, y: Operand)
    requires s1.Ready() && s3.Ready() && Grows(Split(s1, x).(cur := |s1.blocks|), s3)
    ensures Grows(s1, AndMerge(s3, y, |s1.blocks|).0) && AndMerge(s3, y, |s1.blocks|).0.Ready()
  {
    hide Appended;
    var n := |s1.blocks|;
    SplitFacts(s1, x);
    var s2 := Split(s1, x).(cur := n);
    var fin := AndMerge(s3, y, n).0;
    assert SameAt(s2.blocks, s3.blocks, n + 1) && SameAt(s2.blocks, s3.blocks, n + 2);
    UntouchedTrans(s2, s3, fin, {n, n + 1, n + 2}, {s3.cur, n + 1, n + 2});
    DetourGrows(s1, s2, fin);
  }

  /** s is s1 after `||` or `??` has dealt with its true edge. */
  ghost predicate IsMiddle(s1: Builder, x: Operand, keepsLeft: bool, s: Builder)
    requires s1.cur < |s1.blocks|
  {
    var n := |s1.blocks|;
    && IsSplit(s1, x, s) && s1.nextId <= s.nextId && s.cur == n + 1
    && s.blocks[n].code == (if keepsLeft then [] else [Compute(ConstInt(1), s1.nextId, [], None)])
    && s.blocks[n].term == Some(Jump(n + 2))
    && SameBody(EMPTY, s.blocks[n + 1]) && SameBody(EMPTY, s.blocks[n + 2])
  }

  lemma OrMiddleFacts(s1: Builder, x: Operand, keepsLeft: bool)
    requires s1.Ready()
    ensures IsMiddle(s1, x, keepsLeft, OrMiddle(s1, x, keepsLeft))
  {
    hide Split, MakeBlock, BranchTo, Shaped;
    SplitFacts(s1, x);
  }

  lemma {:induction false} OrGrows(r: Source.Expr, s1: Builder, x: Operand, keepsLeft: bool)
    requires s1.Ready()
    ensures Grows(s1, OrRest(r, s1, x, keepsLeft).0) && OrRest(r, s1, x, keepsLeft).0.Ready()
    decreases r, 2
  {
    OrMiddleFacts(s1, x, keepsLeft);
    OrRestGrows(r, s1, x, keepsLeft, OrMiddle(s1, x, keepsLeft), if keepsLeft then x else Value(s1.nextId));
  }

  lemma {:induction false} OrRestGrows(r: Source.Expr, s1: Builder, x: Operand, keepsLeft: bool, s4: Builder,
                                       v: Operand)
    requires s1.Ready() && IsMiddle(s1, x, keepsLeft, s4)
    ensures var (s5, y) := LowerExpr(r, s4);
            Grows(s1, OrMerge(s5, y, v, |s1.blocks|).0) && OrMerge(s5, y, v, |s1.blocks|).0.Ready()
    decreases r, 1
  {
    ExprGrows(r, s4);
    OrMergeGrows(s1, x, keepsLeft, s4, LowerExpr(r, s4).0, LowerExpr(r, s4).1, v);
  }

  lemma OrMergeGrows(s1: Builder, x: Operand, keepsLeft: bool, s4: Builder, s5: Builder, y: Operand, v: Operand)
    requires s1.Ready() && IsMiddle(s1, x, keepsLeft, s4) && s5.Ready() && Grows(s4, s5)
    ensures Grows(s1, OrMerge(s5, y, v, |s1.blocks|).0) && OrMerge(s5, y, v, |s1.blocks|).0.Ready()
  {
    hide SetTerm, JumpTo, Connect, Untouched, Emit, Merge, Appended, Shaped;
    var n := |s1.blocks|;
    var s6 := JumpTo(s5, n + 2);
    JumpTouches(s5, n + 2);
    MergeTouches(s6, n + 2, n, v, s5.cur, y);
    var fin := OrMerge(s5, y, v, n).0;
    assert SameAt(s4.blocks, s5.blocks, n + 2) && SameAt(s5.blocks, s6.blocks, n + 2);
    UntouchedTrans(s5, s6, fin, {s5.cur, n + 2}, {n + 2});
    UntouchedTrans(s4, s5, fin, {n, n + 1, n + 2}, {s5.cur, n + 2});
    DetourGrows(s1, s4, fin);
  }

  /** A value operand was produced by the last instruction emitted, which marks no variable yet. */
  ghost predicate JustProduced(st: Builder, s1: Builder, o: Operand)
    requires st.cur < |st.blocks| && s1.cur < |s1.blocks|
  {
    o.Value? ==>
      && s1.Code() != [] && Dst(s1.Code()[|s1.Code()| - 1]) == Some(o.id)
      && Defined(s1.Code()[|s1.Code()| - 1]) == None && o.id < s1.nextId
      && (s1.cur != st.cur || |s1.Code()| > |st.Code()|)
  }

  lemma ProduceProduces(st: Builder, s1: Builder, op: Op, args: seq<Operand>)
    requires st.Ready() && s1.Ready() && Grows(st, s1)
    ensures JustProduced(st, Produce(s1, op, args), Value(s1.nextId))
  {
  }

  lemma MergeProduces(st: Builder, s: Builder, m: nat, p: nat, x: Operand, q: nat, y: Operand)
    requires st.cur < |st.blocks| <= m < |s.blocks|
    ensures JustProduced(st, Merge(s, m, p, x, q, y).0, Merge(s, m, p, x, q, y).1)
  {
  }

  lemma ExprProduces(e: Source.Expr, st: Builder)
    requires st.Ready()
    ensures JustProduced(st, LowerExpr(e, st).0, LowerExpr(e, st).1)
  {
    match e
    case Literal(c) =>
      GrowsRefl(st);
      ProduceProduces(st, st, ConstInt(c.Word()), []);
    case Variable(v) =>
    case Binary(op, l, r) =>
      ExprGrows(l, st);
      var (s1, x) := LowerExpr(l, st);
      ExprGrows(r, s1);
      var (s2, y) := LowerExpr(r, s1);
      GrowsTrans(st, s1, s2);
      ProduceProduces(st, s2, BinaryToIr(op), [x, y]);
    case Unary(op, a) =>
      ExprGrows(a, st);
      ProduceProduces(st, LowerExpr(a, st).0, UnaryToIr(op), [LowerExpr(a, st).1]);
    case LogicalAnd(l, r) => AndProduces(r, st, LowerExpr(l, st).0, LowerExpr(l, st).1);
    case LogicalOr(l, r) => OrProduces(r, st, LowerExpr(l, st).0, LowerExpr(l, st).1, false);
    case NullCoalesce(l, r) => OrProduces(r, st, LowerExpr(l, st).0, LowerExpr(l, st).1, true);
  }

  lemma AndProduces(r: Source.Expr, st: Builder, s1: Builder, x: Operand)
    requires st.cur < |st.blocks| <= |s1.blocks| && s1.cur < |s1.blocks|
    ensures JustProduced(st, AndRest(r, s1, x).0, AndRest(r, s1, x).1)
  {
    var n := |s1.blocks|;
    var (s3, y) := LowerExpr(r, Split(s1, x).(cur := n));
    var s4 := JumpTo(s3, n + 2);
    MergeProduces(st, JumpTo(Produce(s4.(cur := n + 1), ConstInt(0), []), n + 2), n + 2, s3.cur, y, n + 1,
                  Value(s4.nextId));
  }

  lemma OrProduces(r: Source.Expr, st: Builder, s1: Builder, x: Operand, keepsLeft: bool)
    requires st.cur < |st.blocks| <= |s1.blocks| && s1.cur < |s1.blocks|
    ensures JustProduced(st, OrRest(r, s1, x, keepsLeft).0, OrRest(r, s1, x, keepsLeft).1)
  {
    hide Emit, Split, OrMiddle;
    var n := |s1.blocks|;
    var (s5, y) := LowerExpr(r, OrMiddle(s1, x, keepsLeft));
    MergeProduces(st, JumpTo(s5, n + 2), n + 2, n, if keepsLeft then x else Value(s1.nextId), s5.cur, y);
  }

  lemma BindGrows(st: Builder, s1: Builder, v: Var, o: Operand)
    requires st.Ready() && s1.Ready() && Grows(st, s1) && JustProduced(st, s1, o)
    ensures Grows(st, BindLocal(s1, v, o)) && BindLocal(s1, v, o).Ready()
  {
    var fin := BindLocal(s1, v, o);
    forall i: nat | i < |st.blocks| && i != st.cur ensures SameAt(st.blocks, fin.blocks, i) {
      assert SameAt(st.blocks, s1.blocks, i);
    }
  }

  lemma {:induction false} StmtGrows(s: Source.Stmt, st: Builder)
    requires st.Ready() && LoopsIn(st)
    ensures Grows(st, LowerStmt(s, st))
    decreases s, 1
  {
    match s
    case Let(v, e) =>
      ExprGrows(e, st);
      ExprProduces(e, st);
      BindGrows(st, LowerExpr(e, st).0, v, LowerExpr(e, st).1);
    case Assign(v, e) =>
      ExprGrows(e, st);
      ExprProduces(e, st);
      BindGrows(st, LowerExpr(e, st).0, v, LowerExpr(e, st).1);
    case Print(e) =>
      ExprGrows(e, st);
      var (s1, o) := LowerExpr(e, st);
      EmitGrows(s1, Hir.Print(o));
      GrowsTrans(st, s1, LowerStmt(s, st));
    case ExprStmt(e) => ExprGrows(e, st);
    case If(c, t, els) => var r := IfGrows(c, t, els, st);
    case While(c, b) => var r := WhileGrows(c, b, st);
    case Block(ss) => AllGrows(ss, st);
    case Break => LeaveGrows(s, st);
    case Continue => LeaveGrows(s, st);
    case Return(e) =>
      ExprGrows(e, st);
      FinishGrows(st, LowerExpr(e, st).0, Hir.Return(Some(LowerExpr(e, st).1)));
  }

  lemma FinishGrows(st: Builder, s1: Builder, t: Term)
    requires st.Ready() && s1.Ready() && Grows(st, s1)
    ensures Grows(st, SetTerm(s1, t))
  {
    var fin := SetTerm(s1, t);
    forall i: nat | i < |st.blocks| && i != st.cur ensures SameAt(st.blocks, fin.blocks, i) {
      assert SameAt(st.blocks, s1.blocks, i);
    }
  }

  lemma {:induction false} AllGrows(ss: seq<Source.Stmt>, st: Builder)
    requires st.Ready() && LoopsIn(st)
    ensures Grows(st, LowerAll(ss, st))
    decreases ss, 2
  {
    if ss == [] {
      GrowsRefl(st);
    } else {
      StmtGrows(ss[0], st);
      var s1 := LowerStmt(ss[0], st);
      if !s1.Terminated() {
        AllGrows(ss[1..], s1);
        GrowsTrans(st, s1, LowerAll(ss[1..], s1));
      }
    }
  }

  lemma JumpUnlessDoneTouches(st: Builder, b: nat)
    requires st.cur < |st.blocks| && b < |st.blocks|
    ensures Untouched(st, JumpUnlessDone(st, b), {st.cur}) && JumpUnlessDone(st, b).blocks[st.cur].term.Some?
  {
  }

  lemma BranchTouches(st: Builder, x: Operand, t: nat, f: nat)
    requires st.cur < |st.blocks| && t < |st.blocks| && f < |st.blocks|
    ensures var s := BranchTo(st, x, t, f);
            && Untouched(st, s, {st.cur}) && |s.blocks| == |st.blocks| && s.nextId == st.nextId && s.loops == st.loops
            && s.blocks[st.cur].code == st.blocks[st.cur].code && s.blocks[st.cur].term == Some(Branch(x, t, f))
  {
  }

  lemma WhileBlocksFacts(st: Builder)
    requires st.Ready()
    ensures var s := WhileBlocks(st);
            && s.Ready() && Untouched(st, s, {st.cur}) && s.nextId == st.nextId
            && s.blocks[st.cur].code == st.blocks[st.cur].code && s.blocks[st.cur].term == Some(Jump(|st.blocks|))
            && forall i :: |st.blocks| <= i < |s.blocks| ==> SameBody(EMPTY, s.blocks[i])
  {
  }

  /** Entering the body ends the condition and touches nothing else. */
  lemma WhileBodyFacts(s1: Builder, s2: Builder, x: Operand, n: nat)
    requires s1.Ready() && s1.cur == n && |s1.blocks| == n + 3 && Grows(s1, s2) && s2.Ready()
    requires SameBody(EMPTY, s1.blocks[n + 1]) && SameBody(EMPTY, s1.blocks[n + 2])
    ensures var s := WhileBody(s2, x, n);
            && s.Ready() && Untouched(s1, s, {n}) && s.nextId == s2.nextId
            && s.blocks[s2.cur].code == s2.blocks[s2.cur].code && s.blocks[s2.cur].term == Some(Branch(x, n + 1, n + 2))
            && Untouched(s2, s, {s2.cur})
  {
    BranchTouches(s2, x, n + 1, n + 2);
    UntouchedTrans(s1, s2, WhileBody(s2, x, n), {n}, {s2.cur});
    assert SameAt(s1.blocks, s2.blocks, n + 1);
  }

  /** At the start of the body of a loop made in st: the block before it and the condition have ended. */
  ghost predicate InLoop(st: Builder, s3: Builder)
    requires st.Ready()
  {
    var n := |st.blocks|;
    && s3.Ready() && s3.cur == n + 1 && n + 3 <= |s3.blocks| && st.nextId <= s3.nextId
    && Untouched(st, s3, {st.cur}) && s3.blocks[st.cur].code == st.blocks[st.cur].code && s3.blocks[st.cur].term.Some?
    && SameBody(EMPTY, s3.blocks[n + 2])
  }

  lemma WhileStartGrows(c: Source.Expr, st: Builder)
    requires st.Ready()
    ensures InLoop(st, WhileStart(c, st))
  {
    var n := |st.blocks|;
    WhileBlocksFacts(st);
    var s1 := WhileBlocks(st);
    ExprGrows(c, s1);
    var (s2, x) := LowerExpr(c, s1);
    WhileBodyFacts(s1, s2, x, n);
    var s3 := WhileBody(s2, x, n);
    UntouchedTrans(st, s1, s3, {st.cur}, {n});
    assert SameAt(s1.blocks, s3.blocks, st.cur) && SameAt(s1.blocks, s3.blocks, n + 2);
  }

  lemma {:induction false} WhileGrows(c: Source.Expr, b: Source.Stmt, st: Builder) returns (r: Builder)
    requires st.Ready() && LoopsIn(st)
    ensures r == LowerWhile(c, b, st) && Grows(st, r) && r.Ready()
    decreases Source.While(c, b), 0
  {
    WhileStartGrows(c, st);
    StmtGrows(b, WhileStart(c, st));
    r := LoopEndGrows(st, WhileStart(c, st), LowerStmt(b, WhileStart(c, st)));
    WhileParts(c, b, st);
  }

  lemma WhileParts(c: Source.Expr, b: Source.Stmt, st: Builder)
    requires st.cur < |st.blocks| && LoopsIn(st)
    ensures LowerWhile(c, b, st)
         == JumpUnlessDone(LowerStmt(b, WhileStart(c, st)), |st.blocks|).(cur := |st.blocks| + 2, loops := st.loops)
  {
  }

  lemma LoopEndGrows(st: Builder, s3: Builder, s4: Builder) returns (r: Builder)
    requires st.Ready() && InLoop(st, s3) && Grows(s3, s4)
    ensures r == JumpUnlessDone(s4, |st.blocks|).(cur := |st.blocks| + 2, loops := st.loops)
    ensures Grows(st, r) && r.Ready()
  {
    var n := |st.blocks|;
    var s5 := JumpUnlessDone(s4, n);
    JumpUnlessDoneTouches(s4, n);
    UntouchedTrans(s3, s4, s5, {n + 1}, {s4.cur});
    UntouchedTrans(st, s3, s5, {st.cur}, {n + 1});
    assert SameAt(s3.blocks, s5.blocks, n + 2) && SameAt(s3.blocks, s5.blocks, st.cur);
    r := s5.(cur := n + 2, loops := st.loops);
    GrowsWhen(st, r);
  }

  lemma LeaveGrows(s: Source.Stmt, st: Builder)
    requires st.Ready() && LoopsIn(st) && (s.Break? || s.Continue?)
    ensures Grows(st, LowerStmt(s, st))
  {
    if st.loops == [] {
      GrowsRefl(st);
    } else {
      var l := st.loops[|st.loops| - 1];
      var b := if s.Break? then l.breakTarget else l.continueTarget;
      JumpTouches(st, b);
    }
  }

  lemma {:induction false} IfGrows(c: Source.Expr, t: Source.Stmt, els: Option<Source.Stmt>, st: Builder)
    returns (r: Builder)
    requires st.Ready() && LoopsIn(st)
    ensures r == LowerIf(c, t, els, st) && Grows(st, r) && r.Ready()
    decreases Source.If(c, t, els), 0
  {
    hide ThenStart, LowerArm, LowerElse;
    var s4 := ThenGrows(c, t, els, st);
    ElseGrows(els, st, s4);
    r := LowerElse(els, s4, |st.blocks|);
    IfParts(c, t, els, st);
  }

  lemma IfParts(c: Source.Expr, t: Source.Stmt, els: Option<Source.Stmt>, st: Builder)
    requires st.cur < |st.blocks| && LoopsIn(st)
    ensures LowerIf(c, t, els, st)
         == LowerElse(els, LowerArm(t, ThenStart(c, els.Some?, st), |st.blocks| + 1), |st.blocks|)
  {
  }

  lemma {:induction false} ElseGrows(els: Option<Source.Stmt>, st: Builder, s4: Builder)
    requires st.Ready() && LoopsIn(st) && InArm(st, els.Some?, s4, 1) && s4.cur < |s4.blocks|
    ensures LoopsIn(s4) && Grows(st, LowerElse(els, s4, |st.blocks|)) && LowerElse(els, s4, |st.blocks|).Ready()
    decreases els, 3
  {
    if els.Some? {
      var s6 := ArmGrows(els.value, st, true, s4.(cur := |st.blocks| + 2), 1);
    } else {
      GrowsWhenDone(st, s4.(cur := |st.blocks| + 1));
    }
  }

  lemma GrowsWhenDone(st: Builder, s: Builder)
    requires st.Ready() && InArm(st, false, s, 1) && s.cur == |st.blocks| + 1
    ensures Grows(st, s) && s.Ready()
  {
  }

  lemma {:induction false} ThenGrows(c: Source.Expr, t: Source.Stmt, els: Option<Source.Stmt>, st: Builder)
    returns (s4: Builder)
    requires st.Ready() && LoopsIn(st)
    ensures s4 == LowerArm(t, ThenStart(c, els.Some?, st), |st.blocks| + 1)
    ensures InArm(st, els.Some?, s4, 1) && s4.cur < |s4.blocks|
    decreases Source.If(c, t, els), 0, 0
  {
    ThenStartGrows(c, els.Some?, st);
    s4 := ArmGrows(t, st, els.Some?, ThenStart(c, els.Some?, st), 0);
  }

  lemma ThenStartGrows(c: Source.Expr, hasElse: bool, st: Builder)
    requires st.Ready()
    ensures InArm(st, hasElse, ThenStart(c, hasElse, st), 0)
  {
    IfBlocksFacts(hasElse, st);
    ExprGrows(c, IfBlocks(hasElse, st));
    ThenFacts(st, hasElse, LowerExpr(c, IfBlocks(hasElse, st)).0, LowerExpr(c, IfBlocks(hasElse, st)).1);
  }

  lemma {:induction false} ArmGrows(t: Source.Stmt, st: Builder, hasElse: bool, s3: Builder, k: nat)
    returns (s: Builder)
    requires st.Ready() && LoopsIn(st) && InArm(st, hasElse, s3, k) && k <= 1 && (k == 1 ==> hasElse)
    requires s3.cur == |st.blocks| + 2 * k
    ensures LoopsIn(s3) && s == LowerArm(t, s3, |st.blocks| + 1)
    ensures InArm(st, hasElse, s, k + 1) && s.cur < |s.blocks|
    ensures Grows(st, s.(cur := |st.blocks| + 1)) && s.(cur := |st.blocks| + 1).Ready()
    decreases t, 2
  {
    StmtGrows(t, s3);
    s := LowerArm(t, s3, |st.blocks| + 1);
    ArmEnds(st, hasElse, s3, LowerStmt(t, s3), k);
  }

  lemma IfBlocksFacts(hasElse: bool, st: Builder)
    requires st.Ready()
    ensures var s := IfBlocks(hasElse, st);
            && s.Ready() && Grows(st, s) && s.nextId == st.nextId
            && s.blocks[st.cur].code == st.blocks[st.cur].code
            && forall i :: |st.blocks| <= i < |s.blocks| ==> SameBody(EMPTY, s.blocks[i])
  {
  }

  /** While an `if` made in st is lowered: the block before it has ended, and so have k arms; the other
      blocks of the `if` are still empty. */
  ghost predicate InArm(st: Builder, hasElse: bool, s: Builder, k: nat)
    requires st.Ready()
  {
    var n := |st.blocks|;
    && (if hasElse then n + 3 else n + 2) <= |s.blocks| && st.nextId <= s.nextId && s.loops == st.loops
    && Untouched(st, s, {st.cur}) && Appended(st.blocks[st.cur], s.blocks[st.cur]) && s.blocks[st.cur].term.Some?
    && (k < 1 ==> SameBody(EMPTY, s.blocks[n])) && SameBody(EMPTY, s.blocks[n + 1])
    && (hasElse && k < 2 ==> SameBody(EMPTY, s.blocks[n + 2]))
  }

  lemma ThenFacts(st: Builder, hasElse: bool, s2: Builder, x: Operand)
    requires st.Ready() && Grows(IfBlocks(hasElse, st), s2) && s2.Ready()
    ensures InArm(st, hasElse, ThenArm(hasElse, s2, x, |st.blocks|), 0)
  {
    hide IfBlocks, Untouched, BranchTo;
    var n := |st.blocks|;
    var s1 := IfBlocks(hasElse, st);
    IfBlocksFacts(hasElse, st);
    GrowsTrans(st, s1, s2);
    BranchTouches(s2, x, n, if hasElse then n + 2 else n + 1);
    var s := ThenArm(hasElse, s2, x, n);
    UntouchedTrans(st, s2, s, {st.cur}, {s2.cur});
    UntouchedTrans(s1, s2, s, {st.cur}, {s2.cur});
    assert SameAt(s1.blocks, s.blocks, n) && SameAt(s1.blocks, s.blocks, n + 1);
    if hasElse { assert SameAt(s1.blocks, s.blocks, n + 2); }
    if s2.cur != st.cur { assert SameAt(s2.blocks, s.blocks, st.cur); }
  }

  lemma ArmEnds(st: Builder, hasElse: bool, s3: Builder, s4: Builder, k: nat)
    requires st.Ready() && InArm(st, hasElse, s3, k) && k <= 1 && (k == 1 ==> hasElse)
    requires s3.cur == |st.blocks| + 2 * k && Grows(s3, s4)
    ensures var n := |st.blocks|;
            var s := JumpUnlessDone(s4, n + 1);
            InArm(st, hasElse, s, k + 1) && Grows(st, s.(cur := n + 1)) && s.(cur := n + 1).Ready()
  {
    var n := |st.blocks|;
    var s := JumpUnlessDone(s4, n + 1);
    JumpUnlessDoneTouches(s4, n + 1);
    UntouchedTrans(s3, s4, s, {s3.cur}, {s4.cur});
    UntouchedTrans(st, s3, s, {st.cur}, {s3.cur});
    assert SameAt(s3.blocks, s.blocks, st.cur) && SameAt(s3.blocks, s.blocks, n + 1);
    if hasElse && k == 0 { assert SameAt(s3.blocks, s.blocks, n + 2); }
  }
}
