/** Running lowered code: from any point of the function under construction, the finished graph computes
    what the source does. */
module LoweringSim {
  import opened Wrappers
  import opened Hir
  import opened Lowering
  import opened LoweringGrowth
  import Source

  // ----- runs from anywhere -----

  function RunFrom(f: Func, params: seq<int>, s: State, n: nat): State {
    if n == 0 then s else Step(f, params, RunFrom(f, params, s, n - 1))
  }

  lemma {:induction false} RunFromStart(f: Func, params: seq<int>, n: nat)
    ensures RunFrom(f, params, At(f.entry, START), n) == Run(f, params, n)
  {
    if n > 0 { RunFromStart(f, params, n - 1); }
  }

  lemma {:induction false} RunFromSum(f: Func, params: seq<int>, s: State, m: nat, n: nat)
    ensures RunFrom(f, params, s, m + n) == RunFrom(f, params, RunFrom(f, params, s, m), n)
  {
    if n > 0 { RunFromSum(f, params, s, m, n - 1); }
  }

  lemma {:induction false} StoppedStays(f: Func, params: seq<int>, n: nat, m: nat)
    requires n <= m && Run(f, params, n).Stopped?
    ensures Run(f, params, m) == Run(f, params, n)
  {
    if m > n { StoppedStays(f, params, n, m - 1); }
  }

  // ----- from the middle of a block -----

  /** The code of a block from instruction i on. */
  function Rest(code: seq<Instr>, i: nat, fr: Frame, params: seq<int>): BodyResult
    decreases |code| - i
  {
    if i >= |code| then Done(fr)
    else match Exec(code[i], fr, params)
      case Trap(out) => Trap(out)
      case Done(fr') => Rest(code, i + 1, fr', params)
  }

  /** The state at the end of block b, from its instruction i on. */
  function After(f: Func, params: seq<int>, b: nat, i: nat, fr: Frame): State
    requires b < |f.blocks|
  {
    match Rest(f.blocks[b].code, i, fr, params)
    case Trap(out) => Stopped(Trapped, out)
    case Done(fr') => Finish(f, b, f.blocks[b].term, fr')
  }

  lemma {:induction false} RestJoin(code: seq<Instr>, n: nat, fr: Frame, params: seq<int>)
    requires n <= |code|
    ensures Rest(code, 0, fr, params)
         == match RunCode(code, n, fr, params) case Trap(out) => Trap(out) case Done(fr') => Rest(code, n, fr', params)
  {
    if n > 0 { RestJoin(code, n - 1, fr, params); }
  }

  lemma StepIsAfter(f: Func, params: seq<int>, b: nat, fr: Frame)
    requires b < |f.blocks|
    ensures Step(f, params, At(b, fr)) == After(f, params, b, 0, fr)
    ensures RunFrom(f, params, At(b, fr), 1) == After(f, params, b, 0, fr)
  {
    RestJoin(f.blocks[b].code, |f.blocks[b].code|, fr, params);
    assert RunFrom(f, params, At(b, fr), 0) == At(b, fr);
  }

  /** Entering a block without phis changes nothing. */
  lemma {:induction false} EnterPlain(code: seq<Instr>, n: nat, from: nat, fr: Frame)
    requires n <= |code| && PhiFree(code, 0)
    ensures TakeEdge(code, n, from, fr) == fr
  {
    if n > 0 { EnterPlain(code, n - 1, from, fr); }
  }

  /** Entering a block with one phi, at its front, performs that phi. */
  lemma {:induction false} EnterMerge(code: seq<Instr>, n: nat, from: nat, fr: Frame)
    requires 0 < n <= |code| && code[0].Phi? && PhiFree(code, 1)
    ensures TakeEdge(code, n, from, fr)
         == Write(fr, code[0].dst, code[0].defSym, OperandValue(fr, Chosen(code[0].phis, from)))
  {
    if n > 1 {
      EnterMerge(code, n - 1, from, fr);
    } else {
      assert TakeEdge(code, 0, from, fr) == fr;
    }
  }

  // ----- the graph under construction and the finished one -----

  ghost predicate StartsWith(y: seq<Instr>, x: seq<Instr>) {
    |x| <= |y| && (forall i :: 0 <= i < |x| ==> y[i] == x[i]) && PhiFree(y, |x|)
  }

  ghost predicate FinishedAs(f: Func, d: Draft, b: nat) {
    d.term.Some? ==> b < |f.blocks| && f.blocks[b].code == d.code && f.blocks[b].term == d.term.value
  }

  /** f is what st may become: finished blocks are as they are, the current one has more code. */
  ghost predicate Extends(f: Func, st: Builder) {
    && st.cur < |st.blocks| <= |f.blocks|
    && (forall i: nat :: i < |st.blocks| ==> FinishedAs(f, st.blocks[i], i))
    && (!st.Terminated() ==> StartsWith(f.blocks[st.cur].code, st.Code()))
  }

  function Marked(st: Builder, d: Option<Var>): Builder
    requires st.cur < |st.blocks|
  {
    match d case None => st case Some(v) => TagLast(st, v)
  }

  /** Control stands at the end of what has been built. */
  function Here(f: Func, params: seq<int>, st: Builder, fr: Frame): State
    requires st.cur < |st.blocks| <= |f.blocks|
  {
    After(f, params, st.cur, |st.Code()|, fr)
  }

  lemma ExtendsBack(f: Func, a: Builder, b: Builder)
    requires a.Ready() && Grows(a, b) && Extends(f, b)
    ensures Extends(f, a)
  {
    forall i: nat | i < |a.blocks| ensures FinishedAs(f, a.blocks[i], i) {
      if i != a.cur { assert SameAt(a.blocks, b.blocks, i); }
      assert FinishedAs(f, b.blocks[i], i);
    }
  }

  lemma ProduceBack(f: Func, st: Builder, op: Op, args: seq<Operand>, d: Option<Var>)
    requires st.Ready() && Extends(f, Marked(Produce(st, op, args), d))
    ensures Extends(f, st)
    ensures var code := f.blocks[st.cur].code;
            |st.Code()| < |code| && code[|st.Code()|] == Compute(op, st.nextId, args, d)
  {
    var s := Produce(st, op, args);
    var m := Marked(s, d);
    assert s.Code()[|st.Code()|] == Compute(op, st.nextId, args, None);
    assert m.Code()[|st.Code()|] == Compute(op, st.nextId, args, d);
    forall i: nat | i < |st.blocks| ensures FinishedAs(f, st.blocks[i], i) {
      assert FinishedAs(f, m.blocks[i], i);
    }
  }

  // ----- expressions -----

  /** How an expression's run may change the frame: only new values, and the variable it is bound to. */
  ghost predicate Kept(bound: nat, fr: Frame, fr1: Frame, d: Option<Var>, x: int) {
    && fr1.out == fr.out && fr1.vars == SetVar(fr.vars, d, x)
    && forall id: nat :: id < bound ==> Get(fr1.temps, id) == Get(fr.temps, id)
  }

  /** From st with frame fr the graph reaches, in k blocks, the end of s1 with operand o holding the
      value, or traps when there is none. */
  ghost predicate Computes(f: Func, params: seq<int>, st: Builder, fr: Frame, r: Option<int>,
                           s1: Builder, o: Operand, d: Option<Var>, k: nat, fr1: Frame)
    requires st.cur < |st.blocks| <= |f.blocks| && s1.cur < |s1.blocks| <= |f.blocks|
  {
    match r
    case None => RunFrom(f, params, Here(f, params, st, fr), k) == Stopped(Trapped, fr.out)
    case Some(x) =>
      && RunFrom(f, params, Here(f, params, st, fr), k) == Here(f, params, s1, fr1)
      && Kept(st.nextId, fr, fr1, d, x) && OperandValue(fr1, o) == x
  }

  /** The last step of an operator: its instruction. */
  lemma ProduceRuns(f: Func, params: seq<int>, st: Builder, fr: Frame, op: Op, args: seq<Operand>, d: Option<Var>)
    returns (fr1: Frame)
    requires st.Ready() && Extends(f, Marked(Produce(st, op, args), d))
    ensures st.cur < |f.blocks|
    ensures Computes(f, params, st, fr, Apply(op, OperandValues(fr, args), params), Produce(st, op, args),
                     Value(st.nextId), d, 0, fr1)
  {
    ProduceBack(f, st, op, args, d);
    match Apply(op, OperandValues(fr, args), params)
    case None => fr1 := fr;
    case Some(x) => fr1 := Write(fr, st.nextId, d, x);
  }

  /** Jumping to a block without phis. */
  lemma JumpRuns(f: Func, params: seq<int>, b: nat, i: nat, fr: Frame, t: nat)
    requires b < |f.blocks| && i == |f.blocks[b].code| && t < |f.blocks| && PhiFree(f.blocks[t].code, 0)
    requires match f.blocks[b].term
             case Jump(x) => t == x
             case Branch(c, x, y) => t == if OperandValue(fr, c) != 0 then x else y
             case _ => false
    ensures After(f, params, b, i, fr) == At(t, fr)
    ensures RunFrom(f, params, After(f, params, b, i, fr), 1) == After(f, params, t, 0, fr)
  {
    EnterPlain(f.blocks[t].code, |f.blocks[t].code|, b, fr);
    StepIsAfter(f, params, t, fr);
  }

  /** Jumping to a merge block. */
  lemma MergeRuns(f: Func, params: seq<int>, b: nat, i: nat, fr: Frame, t: nat, dst: Val, phis: seq<Incoming>,
                  d: Option<Var>)
    requires b < |f.blocks| && i == |f.blocks[b].code| && t < |f.blocks| && f.blocks[b].term == Jump(t)
    requires var code := f.blocks[t].code; |code| > 0 && code[0] == Phi(dst, phis, d, None) && PhiFree(code, 1)
    ensures RunFrom(f, params, After(f, params, b, i, fr), 1)
         == After(f, params, t, 1, Write(fr, dst, d, OperandValue(fr, Chosen(phis, b))))
  {
    var code := f.blocks[t].code;
    var fr1 := Write(fr, dst, d, OperandValue(fr, Chosen(phis, b)));
    EnterMerge(code, |code|, b, fr);
    assert After(f, params, b, i, fr) == At(t, fr1);
    StepIsAfter(f, params, t, fr1);
    assert Rest(code, 0, fr1, params) == Rest(code, 1, fr1, params);
  }

  /** Block b of the finished graph has exactly this code and this end. */
  ghost predicate IsBlock(f: Func, b: nat, code: seq<Instr>, t: Term) {
    b < |f.blocks| && f.blocks[b].code == code && f.blocks[b].term == t
  }

  ghost predicate IsMerge(f: Func, b: nat, dst: Val, phis: seq<Incoming>, d: Option<Var>) {
    && b < |f.blocks| && |f.blocks[b].code| > 0
    && f.blocks[b].code[0] == Phi(dst, phis, d, None) && PhiFree(f.blocks[b].code, 1)
  }

  /** What the finished graph looks like around `&&`, lowered from s1 with its right operand ending in s3. */
  ghost predicate AndShape(f: Func, s1: Builder, x: Operand, s3: Builder, y: Operand, d: Option<Var>)
    requires s1.cur < |s1.blocks| && s3.cur < |s3.blocks|
  {
    var n := |s1.blocks|;
    && IsBlock(f, s1.cur, s1.Code(), Branch(x, n, n + 1))
    && IsBlock(f, s3.cur, s3.Code(), Jump(n + 2))
    && IsBlock(f, n + 1, [Compute(ConstInt(0), s3.nextId, [], None)], Jump(n + 2))
    && IsMerge(f, n + 2, s3.nextId + 1, [Incoming(s3.cur, y), Incoming(n + 1, Value(s3.nextId))], d)
  }

  /** The right operand of `&&` has been lowered from s2 to s3, and f goes on to finish the expression. */
  ghost predicate AndSetup(f: Func, s1: Builder, x: Operand, s2: Builder, s3: Builder, y: Operand, d: Option<Var>) {
    var n := |s1.blocks|;
    && s1.Ready() && s2.Ready() && s3.Ready() && IsSplit(s1, x, s2) && s2.cur == n && s2.nextId == s1.nextId
    && SameBody(EMPTY, s2.blocks[n]) && SameBody(EMPTY, s2.blocks[n + 1]) && SameBody(EMPTY, s2.blocks[n + 2])
    && Grows(s2, s3) && Extends(f, Marked(AndMerge(s3, y, n).0, d))
  }

  lemma AndLooks(f: Func, s1: Builder, x: Operand, s2: Builder, s3: Builder, y: Operand, d: Option<Var>)
    requires AndSetup(f, s1, x, s2, s3, y, d)
    ensures AndShape(f, s1, x, s3, y, d)
  {
    var n := |s1.blocks|;
    AndMergeLooks(s3, y, n, s1.cur, s2);
    var m := Marked(AndMerge(s3, y, n).0, d);
    assert FinishedAs(f, m.blocks[s1.cur], s1.cur) && FinishedAs(f, m.blocks[s3.cur], s3.cur);
    assert FinishedAs(f, m.blocks[n + 1], n + 1);
    assert m.Code()[0] == Phi(s3.nextId + 1, [Incoming(s3.cur, y), Incoming(n + 1, Value(s3.nextId))], d, None);
  }

  lemma AndExtends(f: Func, s1: Builder, x: Operand, s2: Builder, s3: Builder, y: Operand, d: Option<Var>)
    requires AndSetup(f, s1, x, s2, s3, y, d)
    ensures Extends(f, s1) && Extends(f, s2) && Extends(f, s3)
  {
    hide AndMerge;
    var n := |s1.blocks|;
    AndMergeLooks(s3, y, n, s1.cur, s2);
    var fin := AndMerge(s3, y, n).0;
    assert SameAt(s2.blocks, s3.blocks, n + 1) && SameAt(s2.blocks, s3.blocks, n + 2);
    MarkedBack(f, s3, fin, d);
    ExtendsBack(f, s2, s3);
    SplitBack(f, s1, s2);
  }

  lemma SplitBack(f: Func, s1: Builder, s2: Builder)
    requires s1.Ready() && s2.Ready() && Untouched(s1, s2, {s1.cur}) && Extends(f, s2)
    requires s2.blocks[s1.cur].code == s1.Code() && s2.blocks[s1.cur].term.Some?
    ensures Extends(f, s1)
  {
    assert FinishedAs(f, s2.blocks[s1.cur], s1.cur);
    forall i: nat | i < |s1.blocks| ensures FinishedAs(f, s1.blocks[i], i) {
      assert FinishedAs(f, s2.blocks[i], i);
      if i != s1.cur { assert SameAt(s1.blocks, s2.blocks, i); }
    }
  }

  /** A later state that only finished the current block, besides working on blocks still empty. */
  lemma MarkedBack(f: Func, s3: Builder, fin: Builder, d: Option<Var>)
    requires s3.Ready() && fin.Ready() && fin.cur < |s3.blocks| && fin.cur != s3.cur && Extends(f, Marked(fin, d))
    requires forall i: nat :: i < |s3.blocks| && s3.blocks[i].term.Some? ==> SameAt(s3.blocks, fin.blocks, i)
    requires |s3.blocks| <= |fin.blocks| && fin.blocks[s3.cur].code == s3.Code() && fin.blocks[s3.cur].term.Some?
    ensures Extends(f, s3)
  {
    var m := Marked(fin, d);
    assert FinishedAs(f, m.blocks[s3.cur], s3.cur);
    forall i: nat | i < |s3.blocks| ensures FinishedAs(f, s3.blocks[i], i) {
      assert FinishedAs(f, m.blocks[i], i);
    }
  }

  lemma AndMergeLooks(s3: Builder, y: Operand, n: nat, c: nat, s2: Builder)
    requires s2.Ready() && s3.Ready() && s2.cur == n && |s2.blocks| == n + 3 && Grows(s2, s3)
    requires c < n && s2.blocks[c].term.Some? && SameBody(EMPTY, s2.blocks[n + 1]) && SameBody(EMPTY, s2.blocks[n + 2])
    ensures var fin := AndMerge(s3, y, n).0;
            && Untouched(s3, fin, {s3.cur, n + 1, n + 2})
            && SameAt(s2.blocks, fin.blocks, c)
            && fin.blocks[s3.cur].code == s3.Code() && fin.blocks[s3.cur].term == Some(Jump(n + 2))
            && fin.blocks[n + 1].code == [Compute(ConstInt(0), s3.nextId, [], None)]
            && fin.blocks[n + 1].term == Some(Jump(n + 2))
            && fin.cur == n + 2 && fin.Ready()
            && fin.Code() == [Phi(s3.nextId + 1, [Incoming(s3.cur, y), Incoming(n + 1, Value(s3.nextId))], None, None)]
  {
    assert SameAt(s2.blocks, s3.blocks, n + 1) && SameAt(s2.blocks, s3.blocks, n + 2);
    assert SameAt(s2.blocks, s3.blocks, c);
  }

  /** The same around `||` and `??`, with the right operand ending in s5. */
  ghost predicate OrShape(f: Func, s1: Builder, x: Operand, keepsLeft: bool, s5: Builder, y: Operand, d: Option<Var>)
    requires s1.cur < |s1.blocks| && s5.cur < |s5.blocks|
  {
    var n := |s1.blocks|;
    && IsBlock(f, s1.cur, s1.Code(), Branch(x, n, n + 1))
    && IsBlock(f, n, if keepsLeft then [] else [Compute(ConstInt(1), s1.nextId, [], None)], Jump(n + 2))
    && IsBlock(f, s5.cur, s5.Code(), Jump(n + 2))
    && IsMerge(f, n + 2, s5.nextId, [Incoming(n, if keepsLeft then x else Value(s1.nextId)), Incoming(s5.cur, y)], d)
  }

  /** The right operand of `||` or `??` has been lowered from s4 to s5, and f goes on to finish the expression. */
  ghost predicate OrSetup(f: Func, s1: Builder, x: Operand, keepsLeft: bool, s4: Builder, s5: Builder, y: Operand,
                          d: Option<Var>) {
    && s1.Ready() && s4.Ready() && s5.Ready() && IsMiddle(s1, x, keepsLeft, s4) && Grows(s4, s5)
    && Extends(f, Marked(OrMerge(s5, y, if keepsLeft then x else Value(s1.nextId), |s1.blocks|).0, d))
  }

  lemma OrLooks(f: Func, s1: Builder, x: Operand, keepsLeft: bool, s4: Builder, s5: Builder, y: Operand, d: Option<Var>)
    requires OrSetup(f, s1, x, keepsLeft, s4, s5, y, d)
    ensures OrShape(f, s1, x, keepsLeft, s5, y, d)
  {
    hide OrMerge;
    var n := |s1.blocks|;
    var v := if keepsLeft then x else Value(s1.nextId);
    OrMergeLooks(s4, s5, n, v, y);
    var fin := OrMerge(s5, y, v, n).0;
    var m := Marked(fin, d);
    assert SameAt(s4.blocks, s5.blocks, s1.cur) && SameAt(s4.blocks, s5.blocks, n);
    assert SameAt(s5.blocks, fin.blocks, s1.cur) && SameAt(s5.blocks, fin.blocks, n);
    assert FinishedAs(f, m.blocks[s1.cur], s1.cur) && FinishedAs(f, m.blocks[s5.cur], s5.cur);
    assert FinishedAs(f, m.blocks[n], n);
    assert m.Code()[0] == Phi(s5.nextId, [Incoming(n, v), Incoming(s5.cur, y)], d, None);
  }

  lemma OrExtends(f: Func, s1: Builder, x: Operand, keepsLeft: bool, s4: Builder, s5: Builder, y: Operand,
                  d: Option<Var>)
    requires OrSetup(f, s1, x, keepsLeft, s4, s5, y, d)
    ensures Extends(f, s1) && Extends(f, s4) && Extends(f, s5)
  {
    var n := |s1.blocks|;
    var v := if keepsLeft then x else Value(s1.nextId);
    OrMergeLooks(s4, s5, n, v, y);
    assert SameAt(s4.blocks, s5.blocks, n + 2);
    MarkedBack(f, s5, OrMerge(s5, y, v, n).0, d);
    ExtendsBack(f, s4, s5);
    SplitBack(f, s1, s4);
  }

  lemma OrMergeLooks(s4: Builder, s5: Builder, n: nat, v: Operand, y: Operand)
    requires s4.Ready() && s5.Ready() && s4.cur == n + 1 && |s4.blocks| == n + 3 && Grows(s4, s5)
    requires SameBody(EMPTY, s4.blocks[n + 2])
    ensures var fin := OrMerge(s5, y, v, n).0;
            && Untouched(s5, fin, {s5.cur, n + 2})
            && fin.blocks[s5.cur].code == s5.Code() && fin.blocks[s5.cur].term == Some(Jump(n + 2))
            && fin.cur == n + 2 && fin.Ready()
            && fin.Code() == [Phi(s5.nextId, [Incoming(n, v), Incoming(s5.cur, y)], None, None)]
  {
    assert SameAt(s4.blocks, s5.blocks, n + 2);
  }

  ghost predicate Reaches(f: Func, params: seq<int>, st: Builder, fr: Frame, r: Option<int>, s1: Builder, o: Operand,
                          d: Option<Var>)
    requires st.cur < |st.blocks| <= |f.blocks| && s1.cur < |s1.blocks| <= |f.blocks|
  {
    exists k, fr1 :: Computes(f, params, st, fr, r, s1, o, d, k, fr1)
  }

  lemma ReachesThen(f: Func, params: seq<int>, st: Builder, fr: Frame, s1: Builder, o1: Operand, x: int, k: nat,
                    fr1: Frame,
                    r: Option<int>, s2: Builder, o2: Operand, d: Option<Var>)
    requires st.cur < |st.blocks| <= |f.blocks| && s1.cur < |s1.blocks| <= |f.blocks|
    requires s2.cur < |s2.blocks| <= |f.blocks|
    requires st.nextId <= s1.nextId
    requires Computes(f, params, st, fr, Some(x), s1, o1, None, k, fr1)
    requires Reaches(f, params, s1, fr1, r, s2, o2, d)
    ensures Reaches(f, params, st, fr, r, s2, o2, d)
  {
    var j, fr2 :| Computes(f, params, s1, fr1, r, s2, o2, d, j, fr2);
    RunFromSum(f, params, Here(f, params, st, fr), k, j);
    assert Computes(f, params, st, fr, r, s2, o2, d, k + j, fr2);
  }

  /** A trap is a trap wherever control was heading. */
  lemma TrapReaches(f: Func, params: seq<int>, st: Builder, fr: Frame, s1: Builder, o1: Operand, d1: Option<Var>,
                    s2: Builder, o2: Operand, d2: Option<Var>)
    requires st.cur < |st.blocks| <= |f.blocks| && s1.cur < |s1.blocks| <= |f.blocks|
    requires s2.cur < |s2.blocks| <= |f.blocks|
    requires Reaches(f, params, st, fr, None, s1, o1, d1)
    ensures Reaches(f, params, st, fr, None, s2, o2, d2)
  {
    var k, fr1 :| Computes(f, params, st, fr, None, s1, o1, d1, k, fr1);
    assert Computes(f, params, st, fr, None, s2, o2, d2, k, fr1);
  }

  /** A left operand, and then whatever follows it. */
  lemma LeftThen(f: Func, params: seq<int>, st: Builder, fr: Frame, s1: Builder, x: Operand, l: Option<int>,
                 r: Option<int>, s2: Builder, o: Operand, d: Option<Var>)
    requires st.cur < |st.blocks| <= |f.blocks| && s1.cur < |s1.blocks| <= |f.blocks|
    requires s2.cur < |s2.blocks| <= |f.blocks|
    requires st.nextId <= s1.nextId && Reaches(f, params, st, fr, l, s1, x, None)
    requires l == None ==> r == None
    requires forall fr1: Frame :: fr1.vars == fr.vars && l == Some(OperandValue(fr1, x))
               ==> Reaches(f, params, s1, fr1, r, s2, o, d)
    ensures Reaches(f, params, st, fr, r, s2, o, d)
  {
    match l
    case Some(a) =>
      var k, fr1 :| Computes(f, params, st, fr, Some(a), s1, x, None, k, fr1);
      ReachesThen(f, params, st, fr, s1, x, a, k, fr1, r, s2, o, d);
    case None =>
      TrapReaches(f, params, st, fr, s1, x, None, s2, o, d);
  }

  /** Lowering an expression is right: from where st stands, the graph reaches its value. */
  lemma {:induction false} ExprRuns(f: Func, params: seq<int>, e: Source.Expr, st: Builder, fr: Frame, d: Option<Var>)
    requires st.Ready() && Extends(f, Marked(LowerExpr(e, st).0, d))
    requires d.Some? ==> LowerExpr(e, st).1.Value?
    ensures Reaches(f, params, st, fr, Source.Eval(e, fr.vars, params), LowerExpr(e, st).0, LowerExpr(e, st).1, d)
    decreases e, 1
  {
    match e
    case Literal(c) =>
      assert OperandValues(fr, []) == [];
      var fr1 := ProduceRuns(f, params, st, fr, ConstInt(c.Word()), [], d);
    case Variable(v) =>
      assert Computes(f, params, st, fr, Some(Get(fr.vars, v)), st, VarRef(v), None, 0, fr);
    case Binary(op, l, r) =>
      BinaryBack(f, op, l, r, st, d);
      var (s1, x) := LowerExpr(l, st);
      var (s2, o) := LowerExpr(e, st);
      ExprRuns(f, params, l, st, fr, None);
      match Source.Eval(l, fr.vars, params) {
        case Some(a) =>
          var k, fr1 :| Computes(f, params, st, fr, Some(a), s1, x, None, k, fr1);
          BinaryRuns(f, params, op, r, s1, x, a, fr1, d);
          ReachesThen(f, params, st, fr, s1, x, a, k, fr1, Source.Eval(e, fr.vars, params), s2, o, d);
        case None =>
          TrapReaches(f, params, st, fr, s1, x, None, s2, o, d);
      }
    case Unary(op, a) => UnaryRuns(f, params, op, a, st, fr, d);
    case LogicalAnd(l, r) => AndRuns(f, params, l, r, st, fr, d);
    case LogicalOr(l, r) => OrRuns(f, params, l, r, st, fr, d);
    case NullCoalesce(l, r) => CoalesceRuns(f, params, l, r, st, fr, d);
  }

  lemma BinaryBack(f: Func, op: Source.BinaryOp, l: Source.Expr, r: Source.Expr, st: Builder, d: Option<Var>)
    requires st.Ready() && Extends(f, Marked(LowerExpr(Source.Binary(op, l, r), st).0, d))
    ensures Extends(f, LowerExpr(l, st).0) && LowerExpr(l, st).0.Ready() && st.nextId <= LowerExpr(l, st).0.nextId
    ensures LowerExpr(l, st).1.Value? ==> LowerExpr(l, st).1.id < LowerExpr(l, st).0.nextId
  {
    var (s1, x) := LowerExpr(l, st);
    var (s2, y) := LowerExpr(r, s1);
    ExprGrows(l, st);
    ExprProduces(l, st);
    OperandBack(f, BinaryToIr(op), r, s1, [x, y], d);
    ExprGrows(r, s1);
    ExtendsBack(f, s1, s2);
  }

  /** Before an operator's instruction stands the end of its last operand. */
  lemma OperandBack(f: Func, op: Op, r: Source.Expr, s1: Builder, args: seq<Operand>, d: Option<Var>)
    requires s1.Ready() && Extends(f, Marked(Produce(LowerExpr(r, s1).0, op, args), d))
    ensures Extends(f, LowerExpr(r, s1).0) && LowerExpr(r, s1).0.Ready() && s1.nextId <= LowerExpr(r, s1).0.nextId
  {
    ExprGrows(r, s1);
    ProduceBack(f, LowerExpr(r, s1).0, op, args, d);
  }

  /** The operation chosen for an operator computes what the operator means. */
  lemma OperatorsAgree(op: Source.BinaryOp, a: int, params: seq<int>)
    ensures forall b :: Apply(BinaryToIr(op), [a, b], params) == Source.EvalBinary(op, a, b)
  {
  }

  /** A binary operator, from the end of its left operand on. */
  lemma {:induction false} BinaryRuns(f: Func, params: seq<int>, op: Source.BinaryOp, r: Source.Expr, s1: Builder,
                                      x: Operand, a: int,
                                      fr: Frame, d: Option<Var>)
    requires s1.Ready() && OperandValue(fr, x) == a && (x.Value? ==> x.id < s1.nextId)
    requires var (s2, y) := LowerExpr(r, s1); Extends(f, Marked(Produce(s2, BinaryToIr(op), [x, y]), d))
    ensures var (s2, y) := LowerExpr(r, s1);
            var v := match Source.Eval(r, fr.vars, params) case None => None
              case Some(b) => Source.EvalBinary(op, a, b);
            Reaches(f, params, s1, fr, v, Produce(s2, BinaryToIr(op), [x, y]), Value(s2.nextId), d)
    decreases r, 2
  {
    var (s2, y) := LowerExpr(r, s1);
    OperandBack(f, BinaryToIr(op), r, s1, [x, y], d);
    ExprRuns(f, params, r, s1, fr, None);
    OperatorsAgree(op, a, params);
    OperatorRuns(f, params, BinaryToIr(op), s1, x, a, fr, s2, y, Source.Eval(r, fr.vars, params), d);
  }

  lemma OperatorRuns(f: Func, params: seq<int>, op: Op, s1: Builder, x: Operand, a: int, fr: Frame,
                     s2: Builder, y: Operand, r: Option<int>, d: Option<Var>)
    requires s1.cur < |s1.blocks| <= |f.blocks| && s2.Ready() && Extends(f, s2) && s1.nextId <= s2.nextId
    requires OperandValue(fr, x) == a && (x.Value? ==> x.id < s1.nextId)
    requires Extends(f, Marked(Produce(s2, op, [x, y]), d)) && Reaches(f, params, s1, fr, r, s2, y, None)
    ensures var v := match r case None => None case Some(b) => Apply(op, [a, b], params);
            Reaches(f, params, s1, fr, v, Produce(s2, op, [x, y]), Value(s2.nextId), d)
  {
    match r
    case Some(b) =>
      var k, fr1 :| Computes(f, params, s1, fr, Some(b), s2, y, None, k, fr1);
      assert OperandValues(fr1, [x, y]) == [a, b];
      var fr2 := ProduceRuns(f, params, s2, fr1, op, [x, y], d);
      ReachesThen(f, params, s1, fr, s2, y, b, k, fr1, Apply(op, [a, b], params), Produce(s2, op, [x, y]),
                  Value(s2.nextId), d);
    case None =>
      TrapReaches(f, params, s1, fr, s2, y, None, Produce(s2, op, [x, y]), Value(s2.nextId), d);
  }

  lemma {:induction false} AndRuns(f: Func, params: seq<int>, l: Source.Expr, r: Source.Expr, st: Builder, fr: Frame,
                                   d: Option<Var>)
    requires st.Ready() && Extends(f, Marked(LowerExpr(Source.LogicalAnd(l, r), st).0, d))
    ensures var e := Source.LogicalAnd(l, r);
            Reaches(f, params, st, fr, Source.Eval(e, fr.vars, params), LowerExpr(e, st).0, LowerExpr(e, st).1, d)
    decreases Source.LogicalAnd(l, r), 0
  {
    hide AndRest, Computes, Produce, OrRest;
    AndBack(f, l, r, st, d);
    ExprRuns(f, params, l, st, fr, None);
    AndAfterLeft(f, params, Source.Eval(l, fr.vars, params), r, st, LowerExpr(l, st).0, LowerExpr(l, st).1, fr, d);
  }

  lemma AndBack(f: Func, l: Source.Expr, r: Source.Expr, st: Builder, d: Option<Var>)
    requires st.Ready() && Extends(f, Marked(LowerExpr(Source.LogicalAnd(l, r), st).0, d))
    ensures Extends(f, LowerExpr(l, st).0) && LowerExpr(l, st).0.Ready() && st.nextId <= LowerExpr(l, st).0.nextId
  {
    ExprGrows(l, st);
    AndLeftExtends(f, r, LowerExpr(l, st).0, LowerExpr(l, st).1, d);
  }

  lemma {:induction false} AndAfterLeft(f: Func, params: seq<int>, l: Option<int>, r: Source.Expr, st: Builder,
                                        s1: Builder, x: Operand,
                                        fr: Frame, d: Option<Var>)
    requires st.cur < |st.blocks| <= |s1.blocks| <= |f.blocks| && s1.Ready() && st.nextId <= s1.nextId
    requires Reaches(f, params, st, fr, l, s1, x, None) && Extends(f, Marked(AndRest(r, s1, x).0, d))
    ensures var v := match l case None => None case Some(a) => AndValue(r, a, fr.vars, params);
            Reaches(f, params, st, fr, v, AndRest(r, s1, x).0, AndRest(r, s1, x).1, d)
    decreases r, 3
  {
    var v := match l case None => None case Some(a) => AndValue(r, a, fr.vars, params);
    forall fr1: Frame | fr1.vars == fr.vars && l == Some(OperandValue(fr1, x))
      ensures Reaches(f, params, s1, fr1, v, AndRest(r, s1, x).0, AndRest(r, s1, x).1, d)
    {
      AndRestRuns(f, params, r, s1, x, OperandValue(fr1, x), fr1, d);
    }
    LeftThen(f, params, st, fr, s1, x, l, v, AndRest(r, s1, x).0, AndRest(r, s1, x).1, d);
  }

  /** The value of `&&` once the left operand's is known. */
  function AndValue(r: Source.Expr, a: int, vars: Source.Vars, params: seq<int>): Option<int> {
    if a != 0 then Source.Eval(r, vars, params) else Some(0)
  }

  lemma AndPrepares(f: Func, r: Source.Expr, s1: Builder, x: Operand, d: Option<Var>)
    requires s1.Ready() && Extends(f, Marked(AndRest(r, s1, x).0, d))
    ensures var s2 := Split(s1, x).(cur := |s1.blocks|);
            AndSetup(f, s1, x, s2, LowerExpr(r, s2).0, LowerExpr(r, s2).1, d)
  {
    hide AndMerge, LowerExpr, SameAt;
    SplitFacts(s1, x);
    ExprGrows(r, Split(s1, x).(cur := |s1.blocks|));
  }

  lemma AndLeftExtends(f: Func, r: Source.Expr, s1: Builder, x: Operand, d: Option<Var>)
    requires s1.Ready() && Extends(f, Marked(AndRest(r, s1, x).0, d))
    ensures Extends(f, s1)
  {
    AndPrepares(f, r, s1, x, d);
    var s2 := Split(s1, x).(cur := |s1.blocks|);
    AndExtends(f, s1, x, s2, LowerExpr(r, s2).0, LowerExpr(r, s2).1, d);
  }

  lemma {:induction false} AndRestRuns(f: Func, params: seq<int>, r: Source.Expr, s1: Builder, x: Operand, a: int,
                                       fr: Frame, d: Option<Var>)
    requires s1.Ready() && Extends(f, Marked(AndRest(r, s1, x).0, d)) && OperandValue(fr, x) == a
    ensures Reaches(f, params, s1, fr, AndValue(r, a, fr.vars, params), AndRest(r, s1, x).0, AndRest(r, s1, x).1, d)
    decreases r, 2
  {
    var s2 := Split(s1, x).(cur := |s1.blocks|);
    var (s3, y) := LowerExpr(r, s2);
    AndPrepares(f, r, s1, x, d);
    AndExtends(f, s1, x, s2, s3, y, d);
    if a != 0 { ExprRuns(f, params, r, s2, fr, None); }
    AndEnds(f, params, s1, x, a, fr, s2, s3, y, AndValue(r, a, fr.vars, params), d);
  }

  lemma AndResult(f: Func, s1: Builder, x: Operand, s2: Builder, s3: Builder, y: Operand, d: Option<Var>)
    requires AndSetup(f, s1, x, s2, s3, y, d) && Extends(f, s3)
    ensures var (fin, o) := AndMerge(s3, y, |s1.blocks|);
            && o == Value(s3.nextId + 1) && fin.cur == |s1.blocks| + 2 < |fin.blocks| <= |f.blocks| && |fin.Code()| == 1
    ensures s3.cur != |s1.blocks| + 1 && s1.nextId <= s3.nextId
  {
    AndMergeLooks(s3, y, |s1.blocks|, s1.cur, s2);
  }

  lemma AndEnds(f: Func, params: seq<int>, s1: Builder, x: Operand, a: int, fr: Frame, s2: Builder, s3: Builder,
                y: Operand,
                v: Option<int>, d: Option<Var>)
    requires AndSetup(f, s1, x, s2, s3, y, d) && Extends(f, s1) && Extends(f, s2) && Extends(f, s3)
    requires OperandValue(fr, x) == a
    requires if a != 0 then Reaches(f, params, s2, fr, v, s3, y, None) else v == Some(0)
    ensures Reaches(f, params, s1, fr, v, AndMerge(s3, y, |s1.blocks|).0, AndMerge(s3, y, |s1.blocks|).1, d)
  {
    hide AndMerge, Marked;
    var n := |s1.blocks|;
    AndLooks(f, s1, x, s2, s3, y, d);
    AndResult(f, s1, x, s2, s3, y, d);
    var fin := AndMerge(s3, y, n).0;
    if a == 0 {
      AndFalse(f, params, s1, x, fr, s3, y, fin, d);
    } else {
      var phis := [Incoming(s3.cur, y), Incoming(n + 1, Value(s3.nextId))];
      ArmRuns(f, params, s1, x, fr, s2, s3, y, v, n + 2, s3.nextId + 1, phis, fin, d);
    }
  }

  lemma {:induction false} OrRuns(f: Func, params: seq<int>, l: Source.Expr, r: Source.Expr, st: Builder, fr: Frame,
                                  d: Option<Var>)
    requires st.Ready() && Extends(f, Marked(LowerExpr(Source.LogicalOr(l, r), st).0, d))
    ensures var e := Source.LogicalOr(l, r);
            Reaches(f, params, st, fr, Source.Eval(e, fr.vars, params), LowerExpr(e, st).0, LowerExpr(e, st).1, d)
    decreases Source.LogicalOr(l, r), 0
  {
    hide OrRest;
    OrBack(f, l, r, false, st, d);
    ExprRuns(f, params, l, st, fr, None);
    OrAfterLeft(f, params, Source.Eval(l, fr.vars, params), r, false, st, LowerExpr(l, st).0, LowerExpr(l, st).1, fr,
                d);
  }

  lemma {:induction false} CoalesceRuns(f: Func, params: seq<int>, l: Source.Expr, r: Source.Expr, st: Builder,
                                        fr: Frame, d: Option<Var>)
    requires st.Ready() && Extends(f, Marked(LowerExpr(Source.NullCoalesce(l, r), st).0, d))
    ensures var e := Source.NullCoalesce(l, r);
            Reaches(f, params, st, fr, Source.Eval(e, fr.vars, params), LowerExpr(e, st).0, LowerExpr(e, st).1, d)
    decreases Source.NullCoalesce(l, r), 0
  {
    hide OrRest;
    OrBack(f, l, r, true, st, d);
    ExprRuns(f, params, l, st, fr, None);
    OrAfterLeft(f, params, Source.Eval(l, fr.vars, params), r, true, st, LowerExpr(l, st).0, LowerExpr(l, st).1, fr, d);
  }

  lemma OrBack(f: Func, l: Source.Expr, r: Source.Expr, keepsLeft: bool, st: Builder, d: Option<Var>)
    requires st.Ready() && Extends(f, Marked(OrRest(r, LowerExpr(l, st).0, LowerExpr(l, st).1, keepsLeft).0, d))
    ensures Extends(f, LowerExpr(l, st).0) && LowerExpr(l, st).0.Ready() && st.nextId <= LowerExpr(l, st).0.nextId
  {
    ExprGrows(l, st);
    OrLeftExtends(f, r, LowerExpr(l, st).0, LowerExpr(l, st).1, keepsLeft, d);
  }

  lemma {:induction false} OrAfterLeft(f: Func, params: seq<int>, l: Option<int>, r: Source.Expr, keepsLeft: bool,
                                       st: Builder, s1: Builder, x: Operand, fr: Frame, d: Option<Var>)
    requires st.cur < |st.blocks| <= |s1.blocks| <= |f.blocks| && s1.Ready() && st.nextId <= s1.nextId
    requires Reaches(f, params, st, fr, l, s1, x, None) && Extends(f, Marked(OrRest(r, s1, x, keepsLeft).0, d))
    ensures var v := match l case None => None case Some(a) => OrValue(r, a, keepsLeft, fr.vars, params);
            Reaches(f, params, st, fr, v, OrRest(r, s1, x, keepsLeft).0, OrRest(r, s1, x, keepsLeft).1, d)
    decreases r, 3
  {
    var v := match l case None => None case Some(a) => OrValue(r, a, keepsLeft, fr.vars, params);
    var (fin, o) := OrRest(r, s1, x, keepsLeft);
    forall fr1: Frame | fr1.vars == fr.vars && l == Some(OperandValue(fr1, x))
      ensures Reaches(f, params, s1, fr1, v, fin, o, d)
    {
      OrRestRuns(f, params, r, s1, x, OperandValue(fr1, x), keepsLeft, fr1, d);
    }
    LeftThen(f, params, st, fr, s1, x, l, v, fin, o, d);
  }

  /** The value of `||` or `??` once the left operand's is known. */
  function OrValue(r: Source.Expr, a: int, keepsLeft: bool, vars: Source.Vars, params: seq<int>): Option<int> {
    if a == 0 then Source.Eval(r, vars, params) else Some(if keepsLeft then a else 1)
  }

  lemma OrPrepares(f: Func, r: Source.Expr, s1: Builder, x: Operand, keepsLeft: bool, d: Option<Var>)
    requires s1.Ready() && Extends(f, Marked(OrRest(r, s1, x, keepsLeft).0, d))
    ensures var s4 := OrMiddle(s1, x, keepsLeft);
            OrSetup(f, s1, x, keepsLeft, s4, LowerExpr(r, s4).0, LowerExpr(r, s4).1, d)
  {
    hide OrMiddle, LowerExpr;
    OrMiddleFacts(s1, x, keepsLeft);
    ExprGrows(r, OrMiddle(s1, x, keepsLeft));
  }

  lemma OrLeftExtends(f: Func, r: Source.Expr, s1: Builder, x: Operand, keepsLeft: bool, d: Option<Var>)
    requires s1.Ready() && Extends(f, Marked(OrRest(r, s1, x, keepsLeft).0, d))
    ensures Extends(f, s1)
  {
    OrPrepares(f, r, s1, x, keepsLeft, d);
    var s4 := OrMiddle(s1, x, keepsLeft);
    OrExtends(f, s1, x, keepsLeft, s4, LowerExpr(r, s4).0, LowerExpr(r, s4).1, d);
  }

  lemma {:induction false} OrRestRuns(f: Func, params: seq<int>, r: Source.Expr, s1: Builder, x: Operand, a: int,
                                      keepsLeft: bool,
                                      fr: Frame, d: Option<Var>)
    requires s1.Ready() && Extends(f, Marked(OrRest(r, s1, x, keepsLeft).0, d)) && OperandValue(fr, x) == a
    ensures Reaches(f, params, s1, fr, OrValue(r, a, keepsLeft, fr.vars, params),
                    OrRest(r, s1, x, keepsLeft).0, OrRest(r, s1, x, keepsLeft).1, d)
    decreases r, 2
  {
    var s4 := OrMiddle(s1, x, keepsLeft);
    var (s5, y) := LowerExpr(r, s4);
    OrPrepares(f, r, s1, x, keepsLeft, d);
    OrExtends(f, s1, x, keepsLeft, s4, s5, y, d);
    if a == 0 { ExprRuns(f, params, r, s4, fr, None); }
    OrEnds(f, params, s1, x, a, keepsLeft, fr, s4, s5, y, OrValue(r, a, keepsLeft, fr.vars, params), d);
  }

  lemma OrEnds(f: Func, params: seq<int>, s1: Builder, x: Operand, a: int, keepsLeft: bool, fr: Frame, s4: Builder,
               s5: Builder, y: Operand,
               r: Option<int>, d: Option<Var>)
    requires OrSetup(f, s1, x, keepsLeft, s4, s5, y, d) && Extends(f, s1) && Extends(f, s4) && Extends(f, s5)
    requires OperandValue(fr, x) == a
    requires if a == 0 then Reaches(f, params, s4, fr, r, s5, y, None) else r == Some(if keepsLeft then a else 1)
    ensures var (fin, o) := OrMerge(s5, y, if keepsLeft then x else Value(s1.nextId), |s1.blocks|);
            Reaches(f, params, s1, fr, r, fin, o, d)
  {
    hide LowerExpr, Marked, Reaches, StartsWith, SameAt;
    var v := if keepsLeft then x else Value(s1.nextId);
    OrLooks(f, s1, x, keepsLeft, s4, s5, y, d);
    OrMergeLooks(s4, s5, |s1.blocks|, v, y);
    var fin := OrMerge(s5, y, v, |s1.blocks|).0;
    if a != 0 {
      OrTrue(f, params, s1, x, a, keepsLeft, fr, s5.nextId, [Incoming(|s1.blocks|, v), Incoming(s5.cur, y)], fin, d);
    } else {
      OrFalse(f, params, s1, x, fr, s4, s5, v, y, r, fin, d);
    }
  }

  lemma OrFalse(f: Func, params: seq<int>, s1: Builder, x: Operand, fr: Frame, s4: Builder, s5: Builder, v: Operand,
                y: Operand,
                r: Option<int>, fin: Builder, d: Option<Var>)
    requires var n := |s1.blocks|;
             && s1.cur < n && IsBlock(f, s1.cur, s1.Code(), Branch(x, n, n + 1)) && OperandValue(fr, x) == 0
             && s4.Ready() && s4.cur == n + 1 && s4.Code() == [] && s1.nextId <= s4.nextId <= s5.nextId
             && Extends(f, s4)
             && s5.cur < |s5.blocks| <= |f.blocks| && s5.cur != n && IsBlock(f, s5.cur, s5.Code(), Jump(n + 2))
             && IsMerge(f, n + 2, s5.nextId, [Incoming(n, v), Incoming(s5.cur, y)], d)
             && fin.cur == n + 2 < |fin.blocks| <= |f.blocks| && |fin.Code()| == 1
    requires Reaches(f, params, s4, fr, r, s5, y, None)
    ensures Reaches(f, params, s1, fr, r, fin, Value(s5.nextId), d)
  {
    var phis := [Incoming(|s1.blocks|, v), Incoming(s5.cur, y)];
    assert Chosen(phis, s5.cur) == y by { assert phis[1..] == [Incoming(s5.cur, y)]; }
    ArmRuns(f, params, s1, x, fr, s4, s5, y, r, |s1.blocks| + 2, s5.nextId, phis, fin, d);
  }

  /** `||` or `??` when its left operand is not 0: 1, or the left operand, by way of the true block. */
  lemma OrTrue(f: Func, params: seq<int>, s1: Builder, x: Operand, a: int, keepsLeft: bool, fr: Frame, dst: Val,
               phis: seq<Incoming>,
               fin: Builder, d: Option<Var>)
    requires var n := |s1.blocks|;
             && s1.cur < n && IsBlock(f, s1.cur, s1.Code(), Branch(x, n, n + 1))
             && IsBlock(f, n, if keepsLeft then [] else [Compute(ConstInt(1), s1.nextId, [], None)], Jump(n + 2))
             && |phis| > 0 && phis[0] == Incoming(n, if keepsLeft then x else Value(s1.nextId))
             && IsMerge(f, n + 2, dst, phis, d) && s1.nextId <= dst
             && fin.cur == n + 2 < |fin.blocks| <= |f.blocks| && |fin.Code()| == 1
    requires OperandValue(fr, x) == a != 0
    ensures Reaches(f, params, s1, fr, Some(if keepsLeft then a else 1), fin, Value(dst), d)
  {
    var n := |s1.blocks|;
    var code := f.blocks[n].code;
    JumpRuns(f, params, s1.cur, |s1.Code()|, fr, n);
    var fr1 := if keepsLeft then fr else Write(fr, s1.nextId, None, 1);
    var v := if keepsLeft then a else 1;
    assert Rest(code, 0, fr, params) == Rest(code, |code|, fr1, params);
    var fr2 := RejoinRuns(f, params, n, code, fr1, n + 2, dst, phis, s1.nextId, fr, v, fin, d);
    RunFromSum(f, params, Here(f, params, s1, fr), 1, 1);
    assert Computes(f, params, s1, fr, Some(v), fin, Value(dst), d, 2, fr2);
  }

  lemma {:induction false} UnaryRuns(f: Func, params: seq<int>, op: Source.UnaryOp, a: Source.Expr, st: Builder,
                                     fr: Frame, d: Option<Var>)
    requires st.Ready() && Extends(f, Marked(LowerExpr(Source.Unary(op, a), st).0, d))
    ensures var e := Source.Unary(op, a);
            Reaches(f, params, st, fr, Source.Eval(e, fr.vars, params), LowerExpr(e, st).0, LowerExpr(e, st).1, d)
    decreases a, 2
  {
    var (s1, x) := LowerExpr(a, st);
    OperandBack(f, UnaryToIr(op), a, st, [x], d);
    ExprRuns(f, params, a, st, fr, None);
    UnaryOperatorRuns(f, params, op, st, fr, s1, x, Source.Eval(a, fr.vars, params), d);
  }

  lemma UnaryOperatorRuns(f: Func, params: seq<int>, op: Source.UnaryOp, st: Builder, fr: Frame,
                          s1: Builder, x: Operand, r: Option<int>, d: Option<Var>)
    requires st.cur < |st.blocks| <= |f.blocks| && s1.Ready() && Extends(f, s1) && st.nextId <= s1.nextId
    requires Extends(f, Marked(Produce(s1, UnaryToIr(op), [x]), d)) && Reaches(f, params, st, fr, r, s1, x, None)
    ensures var v := match r case None => None case Some(b) => Some(Source.EvalUnary(op, b));
            Reaches(f, params, st, fr, v, Produce(s1, UnaryToIr(op), [x]), Value(s1.nextId), d)
  {
    hide Marked, OperandValue;
    var s2 := Produce(s1, UnaryToIr(op), [x]);
    match r
    case Some(b) =>
      var k, fr1 :| Computes(f, params, st, fr, Some(b), s1, x, None, k, fr1);
      assert OperandValues(fr1, [x]) == [b];
      var fr2 := ProduceRuns(f, params, s1, fr1, UnaryToIr(op), [x], d);
      ReachesThen(f, params, st, fr, s1, x, b, k, fr1, Some(Source.EvalUnary(op, b)), s2, Value(s1.nextId), d);
    case None =>
      TrapReaches(f, params, st, fr, s1, x, None, s2, Value(s1.nextId), d);
  }

  // ----- short-circuit operators -----

  /** A block that ends by jumping to a merge block, from where an expression's value is known. */
  lemma RejoinRuns(f: Func, params: seq<int>, b: nat, code: seq<Instr>, fr: Frame, m: nat, dst: Val,
                   phis: seq<Incoming>,
                   bound: nat, fr0: Frame, x: int, fin: Builder, d: Option<Var>)
    returns (fr1: Frame)
    requires IsBlock(f, b, code, Jump(m)) && IsMerge(f, m, dst, phis, d)
    requires Kept(bound, fr0, fr, None, x) && OperandValue(fr, Chosen(phis, b)) == x && bound <= dst
    requires fin.cur == m < |fin.blocks| <= |f.blocks| && |fin.Code()| == 1
    ensures RunFrom(f, params, After(f, params, b, |code|, fr), 1) == Here(f, params, fin, fr1)
    ensures Kept(bound, fr0, fr1, d, x) && OperandValue(fr1, Value(dst)) == x
  {
    MergeRuns(f, params, b, |code|, fr, m, dst, phis, d);
    fr1 := Write(fr, dst, d, x);
  }

  /** `&&` when its left operand is 0: the constant 0, by way of the false block. */
  lemma AndFalse(f: Func, params: seq<int>, s1: Builder, x: Operand, fr: Frame, s3: Builder, y: Operand,
                 fin: Builder, d: Option<Var>)
    requires var n := |s1.blocks|;
             && s1.cur < n && IsBlock(f, s1.cur, s1.Code(), Branch(x, n, n + 1))
             && IsBlock(f, n + 1, [Compute(ConstInt(0), s3.nextId, [], None)], Jump(n + 2))
             && IsMerge(f, n + 2, s3.nextId + 1, [Incoming(s3.cur, y), Incoming(n + 1, Value(s3.nextId))], d)
             && fin.cur == n + 2 < |fin.blocks| <= |f.blocks| && |fin.Code()| == 1
    requires OperandValue(fr, x) == 0 && s3.cur != |s1.blocks| + 1 && s1.nextId <= s3.nextId
    ensures Reaches(f, params, s1, fr, Some(0), fin, Value(s3.nextId + 1), d)
  {
    var n := |s1.blocks|;
    var code := [Compute(ConstInt(0), s3.nextId, [], None)];
    var phis := [Incoming(s3.cur, y), Incoming(n + 1, Value(s3.nextId))];
    JumpRuns(f, params, s1.cur, |s1.Code()|, fr, n + 1);
    var fr1 := Write(fr, s3.nextId, None, 0);
    assert Rest(code, 0, fr, params) == Rest(code, 1, fr1, params);
    assert Chosen(phis, n + 1) == Value(s3.nextId) by { assert phis[1..] == [Incoming(n + 1, Value(s3.nextId))]; }
    var fr2 := RejoinRuns(f, params, n + 1, code, fr1, n + 2, s3.nextId + 1, phis, s1.nextId, fr, 0, fin, d);
    RunFromSum(f, params, Here(f, params, s1, fr), 1, 1);
    assert Computes(f, params, s1, fr, Some(0), fin, Value(s3.nextId + 1), d, 2, fr2);
  }

  /** A branch into an arm, the arm, and the jump to the merge block. */
  lemma ArmRuns(f: Func, params: seq<int>, s1: Builder, x: Operand, fr: Frame, s2: Builder, s3: Builder, y: Operand,
                r: Option<int>,
                m: nat, dst: Val, phis: seq<Incoming>, fin: Builder, d: Option<Var>)
    requires s1.cur < |s1.blocks| <= |f.blocks| && s2.cur < |s2.blocks| <= |f.blocks|
    requires s3.cur < |s3.blocks| <= |f.blocks|
    requires f.blocks[s1.cur].code == s1.Code()
    requires match f.blocks[s1.cur].term
             case Branch(c, t, e) => s2.cur == if OperandValue(fr, c) != 0 then t else e
             case _ => false
    requires s2.Code() == [] && PhiFree(f.blocks[s2.cur].code, 0) && s1.nextId <= s2.nextId <= dst
    requires Reaches(f, params, s2, fr, r, s3, y, None)
    requires IsBlock(f, s3.cur, s3.Code(), Jump(m)) && IsMerge(f, m, dst, phis, d) && Chosen(phis, s3.cur) == y
    requires fin.cur == m < |fin.blocks| <= |f.blocks| && |fin.Code()| == 1
    ensures Reaches(f, params, s1, fr, r, fin, Value(dst), d)
  {
    ArmRejoins(f, params, fr, s2, s3, y, r, m, dst, phis, fin, d);
    ArmEntered(f, params, s1, fr, s2, r, fin, Value(dst), d);
  }

  lemma ArmRejoins(f: Func, params: seq<int>, fr: Frame, s2: Builder, s3: Builder, y: Operand, r: Option<int>,
                   m: nat, dst: Val, phis: seq<Incoming>, fin: Builder, d: Option<Var>)
    requires s2.cur < |s2.blocks| <= |f.blocks| && s3.cur < |s3.blocks| <= |f.blocks| && s2.nextId <= dst
    requires Reaches(f, params, s2, fr, r, s3, y, None)
    requires IsBlock(f, s3.cur, s3.Code(), Jump(m)) && IsMerge(f, m, dst, phis, d) && Chosen(phis, s3.cur) == y
    requires fin.cur == m < |fin.blocks| <= |f.blocks| && |fin.Code()| == 1
    ensures Reaches(f, params, s2, fr, r, fin, Value(dst), d)
  {
    match r
    case None => TrapReaches(f, params, s2, fr, s3, y, None, fin, Value(dst), d);
    case Some(v) =>
      var k: nat, fr1 :| Computes(f, params, s2, fr, r, s3, y, None, k, fr1);
      var fr2 := RejoinRuns(f, params, s3.cur, s3.Code(), fr1, m, dst, phis, s2.nextId, fr, v, fin, d);
      RunFromSum(f, params, Here(f, params, s2, fr), k, 1);
      assert Computes(f, params, s2, fr, r, fin, Value(dst), d, k + 1, fr2);
  }

  /** The branch into an arm costs one block. */
  lemma ArmEntered(f: Func, params: seq<int>, s1: Builder, fr: Frame, s2: Builder, r: Option<int>, fin: Builder,
                   o: Operand, d: Option<Var>)
    requires s1.cur < |s1.blocks| <= |f.blocks| && s2.cur < |s2.blocks| <= |f.blocks|
    requires fin.cur < |fin.blocks| <= |f.blocks|
    requires f.blocks[s1.cur].code == s1.Code()
    requires match f.blocks[s1.cur].term
             case Branch(c, t, e) => s2.cur == if OperandValue(fr, c) != 0 then t else e
             case _ => false
    requires s2.Code() == [] && PhiFree(f.blocks[s2.cur].code, 0) && s1.nextId <= s2.nextId
    requires Reaches(f, params, s2, fr, r, fin, o, d)
    ensures Reaches(f, params, s1, fr, r, fin, o, d)
  {
    hide LowerExpr;
    JumpRuns(f, params, s1.cur, |s1.Code()|, fr, s2.cur);
    var k: nat, fr1 :| Computes(f, params, s2, fr, r, fin, o, d, k, fr1);
    RunFromSum(f, params, Here(f, params, s1, fr), 1, k);
    assert Computes(f, params, s1, fr, r, fin, o, d, 1 + k, fr1);
  }
}
