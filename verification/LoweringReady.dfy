/** The graph lowered from a well-scoped function is what SSA construction asks for. */
module LoweringReady {
  import opened Wrappers
  import opened Graph
  import opened Hir
  import opened SsaForm
  import opened Lowering
  import opened LoweringGrowth
  import opened LoweringShape
  import opened LoweringEdges
  import opened LoweringSound
  import opened Scoping
  import opened LoweringEnds
  import LoweringSteps
  import Pipeline
  import Source

  /** Every block has been started. */
  ghost predicate AllStarted(st: Builder) {
    forall b: nat :: b < |st.blocks| ==> Started(st, b)
  }

  lemma BlockOf(st: Builder, b: nat)
    requires b < |st.blocks|
    ensures |Finished(st).blocks| == |st.blocks| && Finished(st).blocks[b] == FinishedBlock(st.blocks[b])
    ensures Finished(st).Graph().preds[b] == st.blocks[b].preds && Finished(st).Graph().succs[b] == st.blocks[b].succs
  {
  }

  lemma EdgeIs(st: Builder, p: nat, b: nat)
    ensures Finished(st).Graph().Edge(p, b) <==> p < |st.blocks| && b < |st.blocks| && p in st.blocks[b].preds
  {
    if b < |st.blocks| { BlockOf(st, b); }
  }

  lemma WayIsPath(st: Builder, l: Layout, b: nat)
    requires Sound(st, l) && AllStarted(st) && b < |st.blocks| == |l.way|
    ensures PathTo(Finished(st).Graph(), l.way[b], b)
  {
    var g := Finished(st).Graph();
    var w := l.way[b];
    assert Holds(WaysExist, st, l);
    assert WayAt(st, l, b);
    forall i | 0 <= i < |w| ensures w[i] < g.Size() { assert Started(st, w[i]); }
    forall i | 0 < i < |w| ensures g.Edge(w[i - 1], w[i]) {
      assert Started(st, w[i]) && Started(st, w[i - 1]);
      EdgeIs(st, w[i - 1], w[i]);
    }
  }

  lemma GraphIsWellFormed(st: Builder, l: Layout)
    requires Sound(st, l) && AllStarted(st)
    ensures WellFormed(Finished(st).Graph())
  {
    var g := Finished(st).Graph();
    assert Holds(Sized, st, l) && Holds(Mirrored, st, l);
    BlockOf(st, 0);
    assert EdgesAt(st, 0);
    forall b: nat, p | b < g.Size() && p in g.preds[b] ensures p < g.Size() { BlockOf(st, b); assert EdgesAt(st, b); }
    forall p: nat, b | p < g.Size() && b in g.succs[p] ensures g.Edge(p, b) {
      BlockOf(st, p);
      assert EdgesAt(st, p);
      EdgeIs(st, p, b);
    }
    forall p: nat, b: nat | g.Edge(p, b) ensures b in g.succs[p] {
      EdgeIs(st, p, b);
      assert EdgesAt(st, b);
      BlockOf(st, p);
    }
    forall b: nat | b < g.Size() ensures Reachable(g, b) { WayIsPath(st, l, b); }
  }

  /** The blocks recorded above b are on every path to b. */
  lemma {:induction false} AboveOnPath(st: Builder, l: Layout, w: seq<nat>, b: nat, d: nat)
    requires Sound(st, l) && PathTo(Finished(st).Graph(), w, b) && b < |l.above| && d in l.above[b]
    ensures d in w
    decreases |w|
  {
    var g := Finished(st).Graph();
    assert Holds(Sized, st, l) && Holds(AboveKept, st, l);
    assert AboveAt(st, l, b);
    if |w| == 1 {
      assert b == 0;
      assert w[0] == 0;
    } else if d == b {
      assert w[|w| - 1] == d;
    } else {
      var p := w[|w| - 2];
      assert g.Edge(w[|w| - 2], w[|w| - 1]);
      EdgeIs(st, p, b);
      PathPrefix(g, w, b, |w| - 2);
      AboveOnPath(st, l, w[..|w| - 1], p, d);
    }
  }

  lemma AboveDominates(st: Builder, l: Layout, b: nat, d: nat)
    requires Sound(st, l) && b < |l.above| && d in l.above[b]
    ensures Dom(Finished(st).Graph(), d, b)
  {
    forall w | PathTo(Finished(st).Graph(), w, b) ensures d in w { AboveOnPath(st, l, w, b, d); }
  }

  /** A branch never goes to a block that dominates it. */
  lemma BranchesGoForward(st: Builder, l: Layout)
    requires Sound(st, l) && AllStarted(st)
    ensures Pipeline.BranchesForward(Finished(st))
  {
    var f := Finished(st);
    assert Holds(Sized, st, l) && Holds(WaysExist, st, l);
    forall b: nat, x: nat | b < |f.blocks| && f.blocks[b].term.Branch? && x in Targets(f.blocks[b].term)
      ensures !Dom(f.Graph(), x, b)
    {
      BlockOf(st, b);
      assert WayAt(st, l, b);
      WayIsPath(st, l, b);
    }
  }

  // ----- shape -----

  lemma InstrIsShaped(st: Builder, l: Layout, b: nat, i: nat)
    requires Sound(st, l) && b < |st.blocks| && i < |st.blocks[b].code|
    ensures |Finished(st).blocks| == |st.blocks| && Finished(st).blocks[b].code == st.blocks[b].code
    ensures InstrShaped(Finished(st), b, i)
    ensures st.blocks[b].code[i].Phi? ==> i == 0 && st.blocks[b].code[i].phiVar == None
  {
    BlockOf(st, b);
    assert Holds(InstrsRead, st, l) && Holds(MadeOnce, st, l);
    assert InstrAt(st, l, b, i);
    var ins := st.blocks[b].code[i];
    if Dst(ins).Some? { assert Makes(st, b, i, Dst(ins).value); }
    if ins.Phi? {
      forall k | 0 <= k < |ins.phis| && ins.phis[k].value.Value? ensures ins.phis[k].value.id < st.nextId {
        assert EntryAt(st, l, ins.phis[k]);
      }
    }
  }

  lemma BlockIsShaped(st: Builder, l: Layout, b: nat)
    requires Sound(st, l) && b < |st.blocks|
    ensures |Finished(st).blocks| == |st.blocks| && BlockShaped(Finished(st), b)
  {
    BlockOf(st, b);
    assert Holds(Mirrored, st, l) && Holds(TermsRead, st, l);
    assert EdgesAt(st, b) && TermAt(st, l, b);
    forall i: nat | i < |st.blocks[b].code|
      ensures InstrShaped(Finished(st), b, i) && (st.blocks[b].code[i].Phi? ==> i == 0)
    {
      InstrIsShaped(st, l, b, i);
    }
  }

  lemma ProducesIs(st: Builder, b: nat, i: nat, d: Val)
    ensures Produces(Finished(st), b, i, d) <==> Makes(st, b, i, d)
  {
    if b < |st.blocks| { BlockOf(st, b); }
  }

  lemma GraphIsShaped(st: Builder, l: Layout)
    requires Sound(st, l) && AllStarted(st)
    ensures Shaped(Finished(st))
  {
    var f := Finished(st);
    GraphIsWellFormed(st, l);
    assert Holds(MadeOnce, st, l);
    forall d, b: nat, i: nat, c: nat, j: nat | Produces(f, b, i, d) && Produces(f, c, j, d) ensures b == c && i == j {
      ProducesIs(st, b, i, d);
      ProducesIs(st, c, j, d);
    }
    forall b: nat | b < |f.blocks| ensures BlockShaped(f, b) { BlockIsShaped(st, l, b); }
  }

  // ----- scoping -----

  lemma SeenIsVisible(st: Builder, l: Layout, v: Hir.Var, b: nat, i: nat)
    requires Sound(st, l) && VisibleAt(st, l, v, b, i) && i <= |st.blocks[b].code|
    ensures |Finished(st).blocks| == |st.blocks| && Finished(st).blocks[b].code == st.blocks[b].code
    ensures Visible(Finished(st), l.decl, v, b, i)
  {
    BlockOf(st, b);
    if l.decl[v] != b && l.decl[v] in l.above[b] { AboveDominates(st, l, b, l.decl[v]); }
  }

  lemma MadeIsAvailable(st: Builder, l: Layout, d: Val, b: nat, i: nat)
    requires Sound(st, l) && MadeAt(st, l, d, b, i) && b < |st.blocks|
    ensures Available(Finished(st), d, b, i)
  {
    var c: nat, j: nat :| Makes(st, c, j, d) && ((c == b && j < i) || (c != b && c in l.above[b]));
    ProducesIs(st, c, j, d);
    if c != b { AboveDominates(st, l, b, c); }
  }

  lemma EntryIsThere(st: Builder, l: Layout, e: Incoming)
    requires Sound(st, l) && EntryAt(st, l, e)
    ensures |Finished(st).blocks| == |st.blocks| && Finished(st).blocks[e.pred].code == st.blocks[e.pred].code
    ensures e.value.VarRef? ==> Visible(Finished(st), l.decl, e.value.sym, e.pred, |st.blocks[e.pred].code|)
    ensures e.value.Value? ==> Available(Finished(st), e.value.id, e.pred, |st.blocks[e.pred].code|)
  {
    BlockOf(st, e.pred);
    match e.value
    case VarRef(v) => SeenIsVisible(st, l, v, e.pred, |st.blocks[e.pred].code|);
    case Value(d) => MadeIsAvailable(st, l, d, e.pred, |st.blocks[e.pred].code|);
  }

  lemma InstrIsReady(st: Builder, l: Layout, b: nat, i: nat)
    requires Sound(st, l) && b < |st.blocks| && i < |st.blocks[b].code|
    ensures |Finished(st).blocks| == |st.blocks| && Finished(st).blocks[b].code == st.blocks[b].code
    ensures InstrScoped(Finished(st), l.decl, b, i) && InstrSupplied(Finished(st), b, i)
  {
    BlockOf(st, b);
    assert Holds(InstrsRead, st, l);
    assert InstrAt(st, l, b, i);
    var f := Finished(st);
    var ins := st.blocks[b].code[i];
    forall o | o in Operands(ins)
      ensures (o.VarRef? ==> Visible(f, l.decl, o.sym, b, i)) && (o.Value? ==> Available(f, o.id, b, i))
    {
      assert OperandAt(st, l, o, b, i);
      if o.VarRef? { SeenIsVisible(st, l, o.sym, b, i); } else { MadeIsAvailable(st, l, o.id, b, i); }
    }
    if ins.Phi? {
      forall e | e in ins.phis && e.pred < |f.blocks|
        ensures (e.value.VarRef? ==> Visible(f, l.decl, e.value.sym, e.pred, |f.blocks[e.pred].code|))
             && (e.value.Value? ==> Available(f, e.value.id, e.pred, |f.blocks[e.pred].code|))
      {
        var k :| 0 <= k < |ins.phis| && ins.phis[k] == e;
        EntryIsThere(st, l, e);
      }
    }
  }

  lemma TermIsReady(st: Builder, l: Layout, b: nat)
    requires Sound(st, l) && b < |st.blocks|
    ensures |Finished(st).blocks| == |st.blocks|
    ensures TermScoped(Finished(st), l.decl, b) && TermSupplied(Finished(st), b)
  {
    BlockOf(st, b);
    assert Holds(TermsRead, st, l);
    assert TermAt(st, l, b);
    var f := Finished(st);
    var n := |st.blocks[b].code|;
    forall o | o in TermOperands(f.blocks[b].term)
      ensures (o.VarRef? ==> Visible(f, l.decl, o.sym, b, n)) && (o.Value? ==> Available(f, o.id, b, n))
    {
      assert OperandAt(st, l, o, b, n);
      if o.VarRef? { SeenIsVisible(st, l, o.sym, b, n); } else { MadeIsAvailable(st, l, o.id, b, n); }
    }
  }

  lemma DefsAreReady(st: Builder, l: Layout)
    requires Sound(st, l) && AllStarted(st)
    ensures DefsRecorded(Finished(st))
    ensures forall v :: v in l.decl ==> l.decl[v] in DefBlocks(Finished(st), v)
    ensures forall v, b :: b in DefBlocks(Finished(st), v) ==> v in l.decl && Dom(Finished(st).Graph(), l.decl[v], b)
  {
    var f := Finished(st);
    assert Holds(DefsMatch, st, l) && Holds(Declared, st, l) && Holds(Sized, st, l);
    forall b: nat, v | b < |f.blocks| ensures v in f.blocks[b].defs <==> Defines(f.blocks[b].code, v) {
      BlockOf(st, b); assert DefsAt(st, l, b);
    }
    forall v | v in l.decl ensures l.decl[v] in DefBlocks(f, v) { BlockOf(st, l.decl[v]); }
    forall v, b | b in DefBlocks(f, v) ensures v in l.decl && Dom(f.Graph(), l.decl[v], b) {
      BlockOf(st, b);
      assert DefsAt(st, l, b);
      AboveDominates(st, l, b, l.decl[v]);
    }
  }

  lemma FinishedIsReady(st: Builder, l: Layout)
    requires Sound(st, l) && AllStarted(st)
    ensures Ready(Finished(st), l.decl) && Pipeline.BranchesForward(Finished(st))
  {
    var f := Finished(st);
    GraphIsShaped(st, l);
    DefsAreReady(st, l);
    BranchesGoForward(st, l);
    forall b: nat, i: nat | b < |f.blocks| && i < |f.blocks[b].code|
      ensures InstrScoped(f, l.decl, b, i) && InstrSupplied(f, b, i) && !IsVarPhi(f, b, i)
    {
      BlockOf(st, b);
      InstrIsReady(st, l, b, i);
      InstrIsShaped(st, l, b, i);
    }
    forall b: nat | b < |f.blocks| ensures TermScoped(f, l.decl, b) && TermSupplied(f, b) { TermIsReady(st, l, b); }
  }

  // ----- whole functions -----

  function Names(params: seq<Hir.Var>, n: nat): set<Hir.Var>
    requires n <= |params|
  {
    set i | 0 <= i < n :: params[i]
  }

  lemma ParamIsBinding(st: Builder, n: nat, v: Hir.Var)
    requires st.Ready()
    ensures var s := Produce(st, Param(n), []); RecordDef(TagLast(s, v), v) == BindLocal(s, v, Value(st.nextId))
  {
  }

  lemma {:induction false} ParamsSound(params: seq<Hir.Var>, n: nat) returns (l: Layout)
    requires n <= |params|
    ensures var st := LowerParams(params, n);
            && Begins(st, l, Scope(Names(params, n), Names(params, n)))
            && l.decl.Keys == Names(params, n)
  {
    if n == 0 {
      l := NoBlocksYet();
    } else {
      assert Names(params, n) == Names(params, n - 1) + {params[n - 1]};
      var l0 := ParamsSound(params, n - 1);
      l := ParamStep(LowerParams(params, n - 1), l0, n - 1, params[n - 1], Names(params, n - 1));
    }
  }

  lemma NoBlocksYet() returns (l: Layout)
    ensures Begins(Builder([EMPTY], 0, 0, []), l, Scope({}, {})) && l.decl == map[]
  {
    var st := Builder([EMPTY], 0, 0, []);
    l := Layout([{0}], [[0]], map[]);
    assert IsWay(st, [0], 0);
    forall r: Rule ensures Holds(r, st, l) { }
  }

  lemma ParamStep(st: Builder, l0: Layout, n: nat, v: Hir.Var, names: set<Hir.Var>) returns (l: Layout)
    requires Begins(st, l0, Scope(names, names)) && l0.decl.Keys == names
    ensures var s := Produce(st, Param(n), []);
            Begins(RecordDef(TagLast(s, v), v), l, Scope(names + {v}, names + {v})) && l.decl.Keys == names + {v}
  {
    assert Holds(Sized, st, l0);
    ProduceSound(st, l0, Param(n), []);
    var s1 := Produce(st, Param(n), []);
    ParamIsBinding(st, n, v);
    VarsCarry(st, l0, s1, l0, names);
    if v in l0.decl { VisibleDecl(s1, l0, v); }
    l := BindStep(s1, l0, v, Value(st.nextId));
    BindKeeps(st, l0, s1, l0, v, Value(st.nextId), l, Scope(names, names));
  }

  /** A function whose parameters and variables are used as declared, and whose break and continue are in loops
      where they get lowered. */
  predicate WellScopedFunction(fn: Source.Function) {
    var names := Names(fn.params, |fn.params|);
    Accepted(fn.body, false) && Check(fn.body, Scope(names, names)).Some?
  }

  /** Lowering a well-scoped function without dead merges gives a graph ready for SSA construction, in which
      no branch goes back. */
  lemma LoweredIsReady(fn: Source.Function) returns (decl: map<Hir.Var, nat>)
    requires WellScopedFunction(fn) && MergesLive(fn.body)
    ensures Ready(LowerFunction(fn), decl) && Pipeline.BranchesForward(LowerFunction(fn))
  {
    hide LowerStmt, LowerParams, Check, MergesLive;
    var st := LowerParams(fn.params, |fn.params|);
    var names := Names(fn.params, |fn.params|);
    var l := ParamsSound(fn.params, |fn.params|);
    var l1 := StmtSound(fn.body, st, l, Scope(names, names));
    StmtFills(fn.body, st);
    StmtGrows(fn.body, st);
    var fin := LowerStmt(fn.body, st);
    FinishedIsReady(fin, l1);
    decl := l1.decl;
  }

  // ----- dead merges -----

  /** A block nothing leads to. */
  predicate Orphan(st: Builder, b: nat) {
    b < |st.blocks| && st.blocks[b].preds == []
  }

  /** It stays one whatever is lowered after it. */
  lemma OrphanStays(a: Builder, b: Builder, i: nat)
    requires Orphan(a, i) && Fills(a, b) && !IsTarget(a.loops, i)
    ensures Orphan(b, i)
  {
    assert PredsAt(a, b, i);
  }

  lemma {:induction false} DeadMerge(s: Source.Stmt, st: Builder) returns (i: nat)
    requires st.Ready() && LoopsIn(st) && Accepted(s, st.loops != []) && !MergesLive(s)
    ensures i >= |st.blocks| && Orphan(LowerStmt(s, st), i)
    decreases s, 1
  {
    hide LowerExpr, LowerArm, WhileStart, WhileBlocks, WhileBody;
    match s
    case If(c, t, els) => i := DeadIf(c, t, els, st);
    case While(c, b) =>
      var p := LoweringSteps.WhileIsSteps(c, b, st);
      LoweringSteps.WhileReady(p);
      i := DeadMerge(b, p.inBody);
    case Block(ss) => i := DeadAmong(ss, st);
  }

  lemma {:induction false} DeadIf(c: Source.Expr, t: Source.Stmt, els: Option<Source.Stmt>, st: Builder)
    returns (i: nat)
    requires st.Ready() && LoopsIn(st) && Accepted(Source.If(c, t, els), st.loops != [])
    requires !MergesLive(Source.If(c, t, els))
    ensures i >= |st.blocks| && Orphan(LowerIf(c, t, els, st), i)
    decreases Source.If(c, t, els), 0
  {
    if !MergesLive(t) {
      i := DeadThen(c, t, els, st);
    } else if !MergesLive(els.value) {
      i := DeadElse(c, t, els, st);
    } else {
      i := DeadBoth(c, t, els, st);
    }
  }

  lemma {:induction false} DeadThen(c: Source.Expr, t: Source.Stmt, els: Option<Source.Stmt>, st: Builder)
    returns (i: nat)
    requires st.Ready() && LoopsIn(st) && Accepted(t, st.loops != []) && !MergesLive(t)
    ensures i >= |st.blocks| && Orphan(LowerIf(c, t, els, st), i)
    decreases t, 2
  {
    hide LowerExpr, LowerStmt, LowerIf, ThenStart, LowerArm, LowerElse, Grows, JumpUnlessDone;
    var p := LoweringSteps.IfIsSteps(c, t, els, st);
    LoweringSteps.IfReady(p);
    i := DeadMerge(t, p.inThen);
    OrphanInThen(st, els, p.afterThen, p.inElse, p.afterElse, i);
  }

  lemma {:induction false} DeadElse(c: Source.Expr, t: Source.Stmt, els: Option<Source.Stmt>, st: Builder)
    returns (i: nat)
    requires st.Ready() && LoopsIn(st) && els.Some? && Accepted(els.value, st.loops != [])
    requires !MergesLive(els.value)
    ensures i >= |st.blocks| && Orphan(LowerIf(c, t, els, st), i)
    decreases els, 2
  {
    var s5, b := ElseStates(c, t, els, st);
    i := DeadMerge(els.value, s5);
  }

  lemma ElseStates(c: Source.Expr, t: Source.Stmt, els: Option<Source.Stmt>, st: Builder)
    returns (s5: Builder, b: Builder)
    requires st.Ready() && LoopsIn(st) && els.Some?
    ensures s5.Ready() && LoopsIn(s5) && s5.loops == st.loops && |s5.blocks| >= |st.blocks| + 3
    ensures b == LowerStmt(els.value, s5)
    ensures LowerIf(c, t, els, st) == JumpUnlessDone(b, |st.blocks| + 1).(cur := |st.blocks| + 1)
  {
    hide LowerExpr, LowerStmt, LowerIf, ThenStart, LowerArm, LowerElse;
    var p := LoweringSteps.IfIsSteps(c, t, els, st);
    LoweringSteps.IfReady(p);
    s5, b := p.inElse, p.afterElse;
  }

  lemma DeadBoth(c: Source.Expr, t: Source.Stmt, els: Option<Source.Stmt>, st: Builder) returns (i: nat)
    requires st.Ready() && LoopsIn(st) && Accepted(Source.If(c, t, els), st.loops != []) && els.Some? && Ends(t)
    requires Ends(els.value)
    ensures i >= |st.blocks| && Orphan(LowerIf(c, t, els, st), i)
  {
    hide LowerStmt, LowerExpr, LowerIf, ThenStart, LowerArm, LowerElse;
    var p := LoweringSteps.IfIsSteps(c, t, els, st);
    IfFillsAll(c, t, els, p);
    i := |st.blocks| + 1;
  }

  lemma OrphanInThen(st: Builder, els: Option<Source.Stmt>, a: Builder, s5: Builder, b: Builder, i: nat)
    requires LoopsIn(st) && a.cur < |a.blocks| && |st.blocks| + 1 < |a.blocks|
    requires s5.blocks == JumpUnlessDone(a, |st.blocks| + 1).blocks
    requires s5.loops == st.loops && Orphan(a, i) && i > |st.blocks| + 1
    requires els.Some? ==> s5.Ready() && LoopsIn(s5) && b == LowerStmt(els.value, s5)
    ensures Orphan(s5, i)
    ensures els.Some? ==> Orphan(JumpUnlessDone(b, |st.blocks| + 1), i)
  {
    OutOfLoops(st, i);
    if els.Some? {
      StmtFills(els.value, s5);
      OrphanStays(s5, b, i);
    }
  }

  lemma {:induction false} DeadAmong(ss: seq<Source.Stmt>, st: Builder) returns (i: nat)
    requires st.Ready() && LoopsIn(st) && !AllMergesLive(ss)
    requires AllAccepted(ss, st.loops != [])
    ensures i >= |st.blocks| && Orphan(LowerAll(ss, st), i)
    decreases ss, 1
  {
    var s1 := LowerStmt(ss[0], st);
    StmtGrows(ss[0], st);
    EndsIs(ss[0], st);
    if !MergesLive(ss[0]) {
      i := DeadMerge(ss[0], st);
      if s1.Ready() {
        OutOfLoops(st, i);
        AllFills(ss[1..], s1);
        OrphanStays(s1, LowerAll(ss[1..], s1), i);
      } else {
        assert LowerAll(ss[1..], s1) == s1;
      }
    } else {
      i := DeadAmong(ss[1..], s1);
    }
  }

  /** Exactly when no `if` has two arms that leave is the graph well formed, and exactly then does every block
      but the entry have a predecessor, as dominator computation demands. */
  lemma GraphWellFormedIff(fn: Source.Function)
    requires WellScopedFunction(fn)
    ensures WellFormed(LowerFunction(fn).Graph()) <==> MergesLive(fn.body)
    ensures Entered(LowerFunction(fn)) <==> MergesLive(fn.body)
  {
    if MergesLive(fn.body) {
      var decl := LoweredIsReady(fn);
      WellFormedIsEntered(LowerFunction(fn));
    } else {
      var l := ParamsSound(fn.params, |fn.params|);
      var st := LowerParams(fn.params, |fn.params|);
      var i := DeadMerge(fn.body, st);
      OrphanUnreachable(LowerStmt(fn.body, st), i);
    }
  }

  lemma WellFormedIsEntered(f: Func)
    requires WellFormed(f.Graph())
    ensures Entered(f)
  {
    var g := f.Graph();
    forall b: nat | b < |f.blocks| && b != f.entry ensures f.blocks[b].preds != [] {
      var w := SomePath(g, b);
      assert |w| > 1;
      assert g.Edge(w[|w| - 2], w[|w| - 1]);
    }
  }

  lemma OrphanUnreachable(st: Builder, i: nat)
    requires Orphan(st, i) && i > 0
    ensures !Entered(Finished(st)) && !WellFormed(Finished(st).Graph())
  {
    BlockOf(st, i);
    assert Finished(st).blocks[i].preds == [];
    if WellFormed(Finished(st).Graph()) { WellFormedIsEntered(Finished(st)); }
  }

  /** An `if` whose arms both return. */
  const BOTH_RETURN: Source.Function :=
    Source.Function([0],
                    Source.If(Source.Variable(0), Source.Return(Source.Literal(Source.Number(1))),
                              Some(Source.Return(Source.Literal(Source.Number(2))))))

  lemma BothReturnIsOrphaned()
    ensures WellScopedFunction(BOTH_RETURN) && !WellFormed(LowerFunction(BOTH_RETURN).Graph())
  {
    var names := Names(BOTH_RETURN.params, 1);
    assert BOTH_RETURN.params[0] in names;
    BothReturnScope(names);
    GraphWellFormedIff(BOTH_RETURN);
  }

  lemma BothReturnScope(names: set<Hir.Var>)
    requires 0 in names
    ensures Check(BOTH_RETURN.body, Scope(names, names)).Some? && Accepted(BOTH_RETURN.body, false)
    ensures !MergesLive(BOTH_RETURN.body)
  {
    var one := Source.Return(Source.Literal(Source.Number(1)));
    var two := Source.Return(Source.Literal(Source.Number(2)));
    assert Check(one, Scope(names, names)) == Some(Scope(names, names));
    assert Check(two, Scope(names, names)) == Some(Scope(names, names));
    assert Ends(one) && Ends(two);
  }
}
