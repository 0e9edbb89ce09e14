/** Which functions have a machine form: those whose lowered code has no logical negation. */
module MachineForm {
  import opened Wrappers
  import opened Hir
  import Graph
  import opened SsaForm
  import opened PhiInsertion
  import opened MirLowering
  import opened Lowering
  import opened LoweringGrowth
  import opened LoweringEnds
  import opened Scoping
  import Source

  ghost predicate BlockPlain(st: Builder, b: nat)
    requires b < |st.blocks|
  {
    forall i :: 0 <= i < |st.blocks[b].code| ==> HasMachineForm(st.blocks[b].code[i])
  }

  /** No logical negation so far. */
  ghost predicate Plain(st: Builder) {
    forall b: nat :: b < |st.blocks| ==> BlockPlain(st, b)
  }

  ghost predicate SameCodeAt(a: Builder, b: Builder, i: nat) {
    i < |b.blocks| && b.blocks[i].code == if i < |a.blocks| then a.blocks[i].code else []
  }

  /** Ending blocks, making blocks and moving between them emits nothing. */
  lemma SilentPlain(a: Builder, b: Builder)
    requires |a.blocks| <= |b.blocks| && forall i: nat :: i < |b.blocks| ==> SameCodeAt(a, b, i)
    ensures Plain(b) <==> Plain(a)
  {
    if Plain(a) {
      forall i: nat | i < |b.blocks| ensures BlockPlain(b, i) {
        assert SameCodeAt(a, b, i);
        if i < |a.blocks| { assert BlockPlain(a, i); }
      }
    }
    if Plain(b) {
      forall i: nat | i < |a.blocks| ensures BlockPlain(a, i) { assert SameCodeAt(a, b, i) && BlockPlain(b, i); }
    }
  }

  lemma EmitPlain(st: Builder, i: Instr)
    requires st.cur < |st.blocks|
    ensures Plain(Emit(st, i)) <==> Plain(st) && HasMachineForm(i)
  {
    var s := Emit(st, i);
    var n := |st.Code()|;
    if Plain(s) {
      assert BlockPlain(s, st.cur) && s.Code()[n] == i;
      forall b: nat | b < |st.blocks| ensures BlockPlain(st, b) {
        assert BlockPlain(s, b);
        forall k | 0 <= k < |st.blocks[b].code| ensures HasMachineForm(st.blocks[b].code[k]) {
          assert s.blocks[b].code[k] == st.blocks[b].code[k];
        }
      }
    }
    if Plain(st) && HasMachineForm(i) {
      forall b: nat | b < |s.blocks| ensures BlockPlain(s, b) { assert BlockPlain(st, b); }
    }
  }

  lemma ProducePlain(st: Builder, op: Op, args: seq<Operand>)
    requires st.cur < |st.blocks|
    ensures Plain(Produce(st, op, args)) <==> Plain(st) && op != LogicalNot
  {
    var ins := Compute(op, st.nextId, args, None);
    EmitPlain(st, ins);
    SilentPlain(Emit(st, ins), Produce(st, op, args));
  }

  lemma JumpPlain(st: Builder, b: nat)
    requires st.cur < |st.blocks| && b < |st.blocks|
    ensures Plain(JumpTo(st, b)) <==> Plain(st)
    ensures Plain(JumpUnlessDone(st, b)) <==> Plain(st)
  {
    SilentPlain(st, JumpTo(st, b));
  }

  /** Where control is and which loops it is in do not matter. */
  lemma MovePlain(st: Builder, p: nat, loops: seq<Loop>)
    ensures Plain(st.(cur := p)) <==> Plain(st)
    ensures Plain(st.(cur := p, loops := loops)) <==> Plain(st)
  {
    SilentPlain(st, st.(cur := p));
    SilentPlain(st, st.(cur := p, loops := loops));
  }

  lemma MergePlain(st: Builder, m: nat, p: nat, x: Operand, q: nat, y: Operand)
    requires m < |st.blocks|
    ensures Plain(Merge(st, m, p, x, q, y).0) <==> Plain(st)
  {
    var ins := Phi(st.nextId, [Incoming(p, x), Incoming(q, y)], None, None);
    MovePlain(st, m, []);
    EmitPlain(st.(cur := m), ins);
    SilentPlain(Emit(st.(cur := m), ins), Merge(st, m, p, x, q, y).0);
  }

  // ----- expressions -----

  lemma {:induction false} ExprPlain(e: Source.Expr, st: Builder)
    requires st.cur < |st.blocks|
    ensures Plain(LowerExpr(e, st).0) <==> Plain(st) && !ExprUsesNot(e)
    decreases e, 0
  {
    hide Plain, AndRest, OrRest;
    match e
    case Literal(c) => ProducePlain(st, ConstInt(c.Word()), []);
    case Variable(_) =>
    case Binary(op, l, r) =>
      var (s1, x) := LowerExpr(l, st);
      var (s2, y) := LowerExpr(r, s1);
      ExprPlain(l, st);
      ExprPlain(r, s1);
      ProducePlain(s2, BinaryToIr(op), [x, y]);
    case Unary(op, a) =>
      ExprPlain(a, st);
      ProducePlain(LowerExpr(a, st).0, UnaryToIr(op), [LowerExpr(a, st).1]);
    case LogicalAnd(l, r) =>
      ExprPlain(l, st);
      AndPlain(r, LowerExpr(l, st).0, LowerExpr(l, st).1);
    case LogicalOr(l, r) =>
      ExprPlain(l, st);
      OrPlain(r, LowerExpr(l, st).0, LowerExpr(l, st).1, false);
    case NullCoalesce(l, r) =>
      ExprPlain(l, st);
      OrPlain(r, LowerExpr(l, st).0, LowerExpr(l, st).1, true);
  }

  lemma SplitPlain(s1: Builder, x: Operand)
    requires s1.cur < |s1.blocks|
    ensures Plain(Split(s1, x).(cur := |s1.blocks|)) <==> Plain(s1)
  {
    SilentPlain(s1, Split(s1, x).(cur := |s1.blocks|));
  }

  lemma {:induction false} AndPlain(r: Source.Expr, s1: Builder, x: Operand)
    requires s1.cur < |s1.blocks|
    ensures Plain(AndRest(r, s1, x).0) <==> Plain(s1) && !ExprUsesNot(r)
    decreases r, 1
  {
    var n := |s1.blocks|;
    SplitPlain(s1, x);
    ExprPlain(r, Split(s1, x).(cur := n));
    AndMergePlain(LowerExpr(r, Split(s1, x).(cur := n)).0, LowerExpr(r, Split(s1, x).(cur := n)).1, n);
  }

  lemma AndMergePlain(s3: Builder, y: Operand, n: nat)
    requires s3.cur < |s3.blocks| && n + 2 < |s3.blocks|
    ensures Plain(AndMerge(s3, y, n).0) <==> Plain(s3)
  {
    hide Plain;
    var s4 := JumpTo(s3, n + 2);
    JumpPlain(s3, n + 2);
    MovePlain(s4, n + 1, []);
    ProducePlain(s4.(cur := n + 1), ConstInt(0), []);
    var s5 := Produce(s4.(cur := n + 1), ConstInt(0), []);
    JumpPlain(s5, n + 2);
    MergePlain(JumpTo(s5, n + 2), n + 2, s3.cur, y, n + 1, Value(s4.nextId));
  }

  lemma {:induction false} OrPlain(r: Source.Expr, s1: Builder, x: Operand, keepsLeft: bool)
    requires s1.cur < |s1.blocks|
    ensures Plain(OrRest(r, s1, x, keepsLeft).0) <==> Plain(s1) && !ExprUsesNot(r)
    decreases r, 1
  {
    var n := |s1.blocks|;
    OrMiddlePlain(s1, x, keepsLeft);
    ExprPlain(r, OrMiddle(s1, x, keepsLeft));
    var (s5, y) := LowerExpr(r, OrMiddle(s1, x, keepsLeft));
    OrMergePlain(s5, y, if keepsLeft then x else Value(s1.nextId), n);
  }

  lemma OrMergePlain(s5: Builder, y: Operand, v: Operand, n: nat)
    requires s5.cur < |s5.blocks| && n + 2 < |s5.blocks|
    ensures Plain(OrMerge(s5, y, v, n).0) <==> Plain(s5)
  {
    JumpPlain(s5, n + 2);
    MergePlain(JumpTo(s5, n + 2), n + 2, n, v, s5.cur, y);
  }

  lemma OrMiddlePlain(s1: Builder, x: Operand, keepsLeft: bool)
    requires s1.cur < |s1.blocks|
    ensures Plain(OrMiddle(s1, x, keepsLeft)) <==> Plain(s1)
  {
    hide Plain;
    var n := |s1.blocks|;
    var s2 := Split(s1, x).(cur := n);
    SplitPlain(s1, x);
    ProducePlain(s2, ConstInt(1), []);
    var s3 := if keepsLeft then s2 else Produce(s2, ConstInt(1), []);
    JumpPlain(s3, n + 2);
    MovePlain(JumpTo(s3, n + 2), n + 1, []);
  }

  // ----- statements -----

  lemma BindPlain(s1: Builder, v: Hir.Var, o: Operand)
    requires s1.cur < |s1.blocks|
    ensures Plain(BindLocal(s1, v, o)) <==> Plain(s1)
  {
    var s := RecordDef(s1, v);
    SilentPlain(s1, s);
    if o.VarRef? { EmitPlain(s, Bind(o, v)); } else { TagPlain(s, v); }
  }

  lemma TagPlain(s: Builder, v: Hir.Var)
    requires s.cur < |s.blocks|
    ensures Plain(TagLast(s, v)) <==> Plain(s)
  {
    var t := TagLast(s, v);
    if Plain(t) {
      forall b: nat | b < |s.blocks| ensures BlockPlain(s, b) {
        assert BlockPlain(t, b);
        forall k | 0 <= k < |s.blocks[b].code| ensures HasMachineForm(s.blocks[b].code[k]) {
          assert HasMachineForm(t.blocks[b].code[k]);
        }
      }
    }
    if Plain(s) {
      forall b: nat | b < |t.blocks| ensures BlockPlain(t, b) { assert BlockPlain(s, b); }
    }
  }

  lemma {:induction false} StmtPlain(s: Source.Stmt, st: Builder)
    requires st.Ready() && LoopsIn(st) && Accepted(s, st.loops != [])
    ensures Plain(LowerStmt(s, st)) <==> Plain(st) && !UsesNot(s)
    decreases s, 1
  {
    match s
    case Let(v, e) =>
      ExprPlain(e, st);
      BindPlain(LowerExpr(e, st).0, v, LowerExpr(e, st).1);
    case Assign(v, e) =>
      ExprPlain(e, st);
      BindPlain(LowerExpr(e, st).0, v, LowerExpr(e, st).1);
    case Print(e) =>
      ExprPlain(e, st);
      EmitPlain(LowerExpr(e, st).0, Hir.Print(LowerExpr(e, st).1));
    case ExprStmt(e) => ExprPlain(e, st);
    case Return(e) =>
      ExprPlain(e, st);
      SilentPlain(LowerExpr(e, st).0, LowerStmt(s, st));
    case If(c, t, els) => IfPlain(c, t, els, st);
    case While(c, b) => WhilePlain(c, b, st);
    case Block(ss) => AllPlain(ss, st);
    case Break => SilentPlain(st, LowerStmt(s, st));
    case Continue => SilentPlain(st, LowerStmt(s, st));
  }

  lemma {:induction false} AllPlain(ss: seq<Source.Stmt>, st: Builder)
    requires st.Ready() && LoopsIn(st) && AllAccepted(ss, st.loops != [])
    ensures Plain(LowerAll(ss, st)) <==> Plain(st) && !AnyUsesNot(ss)
    decreases ss, 2
  {
    if ss != [] {
      var s1 := LowerStmt(ss[0], st);
      StmtPlain(ss[0], st);
      EndsIs(ss[0], st);
      if s1.Ready() {
        AllPlain(ss[1..], s1);
      } else {
        assert LowerAll(ss[1..], s1) == s1;
      }
    }
  }

  lemma {:induction false} ArmPlain(t: Source.Stmt, s3: Builder, m: nat)
    requires s3.Ready() && LoopsIn(s3) && Accepted(t, s3.loops != []) && m < |s3.blocks|
    ensures Plain(LowerArm(t, s3, m)) <==> Plain(s3) && !UsesNot(t)
    decreases t, 2
  {
    StmtPlain(t, s3);
    JumpPlain(LowerStmt(t, s3), m);
  }

  lemma ThenStartPlain(c: Source.Expr, els: bool, st: Builder)
    requires st.cur < |st.blocks|
    ensures Plain(ThenStart(c, els, st)) <==> Plain(st) && !ExprUsesNot(c)
  {
    SilentPlain(st, IfBlocks(els, st));
    ExprPlain(c, IfBlocks(els, st));
    var (s2, x) := LowerExpr(c, IfBlocks(els, st));
    ThenArmPlain(els, s2, x, |st.blocks|);
  }

  lemma ThenArmPlain(els: bool, s2: Builder, x: Operand, n: nat)
    requires s2.cur < |s2.blocks| && (if els then n + 2 else n + 1) < |s2.blocks|
    ensures Plain(ThenArm(els, s2, x, n)) <==> Plain(s2)
  {
    SilentPlain(s2, ThenArm(els, s2, x, n));
  }

  lemma {:induction false} IfPlain(c: Source.Expr, t: Source.Stmt, els: Option<Source.Stmt>, st: Builder)
    requires st.Ready() && LoopsIn(st) && Accepted(Source.If(c, t, els), st.loops != [])
    ensures Plain(LowerIf(c, t, els, st)) <==> Plain(st) && !UsesNot(Source.If(c, t, els))
    decreases Source.If(c, t, els), 0
  {
    hide LowerStmt, LowerExpr, Plain, ThenStart, LowerArm, LowerElse;
    var s3 := ThenStart(c, els.Some?, st);
    ThenStartPlain(c, els.Some?, st);
    ThenStartGrows(c, els.Some?, st);
    ArmPlain(t, s3, |st.blocks| + 1);
    var s4 := ThenGrows(c, t, els, st);
    ElsePlain(els, s4, |st.blocks|);
    IfParts(c, t, els, st);
  }

  lemma {:induction false} ElsePlain(els: Option<Source.Stmt>, s4: Builder, n: nat)
    requires s4.cur < |s4.blocks| && LoopsIn(s4) && (if els.Some? then n + 2 else n + 1) < |s4.blocks|
    requires els.Some? ==> s4.blocks[n + 2].term.None? && Accepted(els.value, s4.loops != [])
    ensures Plain(LowerElse(els, s4, n)) <==> Plain(s4) && (els.Some? ==> !UsesNot(els.value))
    decreases els, 3
  {
    MovePlain(s4, n + 1, []);
    if els.Some? {
      MovePlain(s4, n + 2, []);
      ArmPlain(els.value, s4.(cur := n + 2), n + 1);
      MovePlain(LowerArm(els.value, s4.(cur := n + 2), n + 1), n + 1, []);
    }
  }

  lemma WhileStartPlain(c: Source.Expr, st: Builder)
    requires st.cur < |st.blocks|
    ensures Plain(WhileStart(c, st)) <==> Plain(st) && !ExprUsesNot(c)
  {
    hide LowerExpr, Plain;
    SilentPlain(st, WhileBlocks(st));
    ExprPlain(c, WhileBlocks(st));
    var (s2, x) := LowerExpr(c, WhileBlocks(st));
    SilentPlain(s2, WhileBody(s2, x, |st.blocks|));
  }

  lemma {:induction false} WhilePlain(c: Source.Expr, b: Source.Stmt, st: Builder)
    requires st.Ready() && LoopsIn(st) && Accepted(b, true)
    ensures Plain(LowerWhile(c, b, st)) <==> Plain(st) && !ExprUsesNot(c) && !UsesNot(b)
    decreases Source.While(c, b), 0
  {
    hide LowerStmt, LowerExpr, Plain, WhileStart, LowerArm;
    WhileStartPlain(c, st);
    WhileStartGrows(c, st);
    ArmPlain(b, WhileStart(c, st), |st.blocks|);
    MovePlain(LowerArm(b, WhileStart(c, st), |st.blocks|), |st.blocks| + 2, st.loops);
  }

  // ----- functions -----

  lemma {:induction false} ParamsPlain(params: seq<Hir.Var>, n: nat)
    requires n <= |params|
    ensures Plain(LowerParams(params, n)) && LowerParams(params, n).Ready()
    decreases n
  {
    if n > 0 {
      var st := LowerParams(params, n - 1);
      ParamsPlain(params, n - 1);
      ProducePlain(st, Param(n - 1), []);
      var s1 := Produce(st, Param(n - 1), []);
      TagPlain(s1, params[n - 1]);
      SilentPlain(TagLast(s1, params[n - 1]), LowerParams(params, n));
    }
  }

  lemma FinishedPlain(st: Builder)
    ensures FunctionHasMachineForm(Finished(st)) <==> Plain(st)
  {
    var f := Finished(st);
    forall b: nat | b < |st.blocks| ensures BlockHasMachineForm(f, b) <==> BlockPlain(st, b) {
      assert f.blocks[b] == FinishedBlock(st.blocks[b]);
    }
  }

  /** The lowered function has a machine form exactly when its lowered code does not use logical negation. */
  lemma LoweredHasMachineForm(fn: Source.Function)
    requires Accepted(fn.body, false)
    ensures FunctionHasMachineForm(LowerFunction(fn)) <==> !UsesNot(fn.body)
  {
    var st := LowerParams(fn.params, |fn.params|);
    ParamsPlain(fn.params, |fn.params|);
    StmtPlain(fn.body, st);
    FinishedPlain(LowerStmt(fn.body, st));
  }

  /** SSA construction neither adds nor removes negations. */
  lemma SsaKeepsMachineForm(f: Func, f1: Func, r: Func)
    requires IsSsaOf(f, f1, r)
    ensures FunctionHasMachineForm(r) <==> FunctionHasMachineForm(f)
  {
    forall b: nat | b < |f.blocks| ensures BlockHasMachineForm(r, b) <==> BlockHasMachineForm(f, b) {
      SsaBlockForm(f, f1, b);
    }
  }

  lemma SsaBlockForm(f: Func, f1: Func, b: nat)
    requires PhisInserted(f, f1) && Graph.WellFormed(f1.Graph()) && b < |f.blocks|
    ensures BlockHasMachineForm(Renamed(f1), b) <==> BlockHasMachineForm(f, b)
  {
    var r := Renamed(f1);
    BlockParts(f, f1, b);
    var k := Shift(f, f1, b);
    forall i: nat | i < |r.blocks[b].code|
      ensures HasMachineForm(r.blocks[b].code[i]) <==> HasMachineForm(f1.blocks[b].code[i])
    {
      assert r.blocks[b].code[i] == RenamedInstr(f1, b, i);
    }
    if BlockHasMachineForm(f, b) {
      forall i | 0 <= i < |r.blocks[b].code| ensures HasMachineForm(r.blocks[b].code[i]) {
        if i < k {
          assert IsNewPhi(f, f1.blocks[b].code[i], f1.lastValueId, b);
        } else {
          assert HasMachineForm(f.blocks[b].code[i - k]);
        }
      }
    }
    if BlockHasMachineForm(r, b) {
      forall i | 0 <= i < |f.blocks[b].code| ensures HasMachineForm(f.blocks[b].code[i]) {
        assert f1.blocks[b].code[i + k] == f.blocks[b].code[i];
        assert HasMachineForm(r.blocks[b].code[i + k]);
      }
    }
  }
}
