/** From source to machine IR: the whole native pipeline, and what it keeps of the source's behaviour. */
module NativeCompiler {
  import opened Wrappers
  import opened Hir
  import opened SsaForm
  import opened SsaStrict
  import opened SsaBuilder
  import opened MirLowering
  import opened MirBuilder
  import opened MachineForm
  import opened Lowering
  import opened LoweringCorrect
  import opened LoweringReady
  import opened Scoping
  import opened Pipeline
  import IrBuilder
  import Mir
  import Source

  /** How a call of the function ends, as a state of the machine. */
  function MachineEnd(r: Source.Flow): Mir.State
    requires !r.OutOfFuel?
  {
    match EndOf(r) case Stopped(o, out) => Mir.Stopped(o, out)
  }

  /** After n blocks the machine has ended as the source did, or, the source being out of fuel, is still going
      and has printed the same. */
  ghost predicate MachineFollows(r: Source.Flow, s: Mir.State, n: nat, fuel: nat) {
    if r.OutOfFuel? then n >= fuel && s.At? && s.out == r.out else s == MachineEnd(r)
  }

  /** The machine ends as the source does, when it does; it never ends otherwise; and until then, however long
      that is, it prints what the source prints. */
  ghost predicate SameBehaviour(fn: Source.Function, m: Mir.Func, args: seq<int>) {
    && (forall fuel: nat :: KeepsUp(fn, m, args, fuel))
    && (forall n: nat :: Mir.Run(m, args, n).Stopped? ==> EndsThus(fn, args, n, Mir.Run(m, args, n)))
  }

  ghost predicate KeepsUp(fn: Source.Function, m: Mir.Func, args: seq<int>, fuel: nat) {
    exists n: nat :: MachineFollows(Source.Call(fn, args, fuel), Mir.Run(m, args, n), n, fuel)
  }

  ghost predicate EndsThus(fn: Source.Function, args: seq<int>, fuel: nat, s: Mir.State) {
    !Source.Call(fn, args, fuel).OutOfFuel? && s == MachineEnd(Source.Call(fn, args, fuel))
  }

  /** Source to machine IR: every well-scoped function without dead merges keeps its behaviour, whatever
      its arguments, through lowering, SSA construction and SSA destruction. */
  lemma CompiledBehavesAsSource(fn: Source.Function, f1: Func, r: Func, m: Mir.Func, args: seq<int>)
    requires WellScopedFunction(fn) && MergesLive(fn.body)
    requires IsSsaOf(LowerFunction(fn), f1, r) && IsLowering(r, m)
    ensures SameBehaviour(fn, m, args)
  {
    var f := LowerFunction(fn);
    var decl := LoweredIsReady(fn);
    forall fuel: nat ensures KeepsUp(fn, m, args, fuel) {
      var n := FunctionRuns(fn, args, fuel);
      BackendPreservesRuns(f, f1, r, m, decl, args, n);
      FollowsToo(Source.Call(fn, args, fuel), Run(f, args, n), Mir.Run(m, args, n), n, fuel);
    }
    forall n: nat | Mir.Run(m, args, n).Stopped? ensures EndsThus(fn, args, n, Mir.Run(m, args, n)) {
      BackendPreservesRuns(f, f1, r, m, decl, args, n);
      FunctionEnds(fn, args, n);
    }
  }

  lemma FollowsToo(r: Source.Flow, s: State, t: Mir.State, n: nat, fuel: nat)
    requires Follows(r, s, n, fuel) && SameObservations(s, t)
    ensures MachineFollows(r, t, n, fuel)
  {
  }

  /** In strict SSA form only logical negation is in the way of machine code. */
  lemma StrictConverts(f: Func)
    requires StrictSsa(f)
    ensures Convertible(f) <==> FunctionHasMachineForm(f)
  {
    forall b: nat, i: nat | b < |f.blocks| && i < |f.blocks[b].code|
      ensures InstrConvertible(f.blocks[b].code[i]) <==> HasMachineForm(f.blocks[b].code[i])
    {
      assert ResolvedAt(f, b, i);
      assert InstrShaped(f, b, i) by { assert BlockShaped(f, b); }
    }
    forall b: nat | b < |f.blocks| ensures BlockConvertible(f, b) <==> BlockHasMachineForm(f, b) { }
  }

  /** The passes one after the other. None stands for the two errors a well-scoped function can meet: a merge
      block without predecessors, and logical negation; it compiles exactly when it meets neither. */
  method Compile(fn: Source.Function) returns (r: Option<Mir.Func>)
    requires WellScopedFunction(fn)
    ensures r.Some? <==> MergesLive(fn.body) && !UsesNot(fn.body)
    ensures r.Some? ==> forall args :: SameBehaviour(fn, r.value, args)
    ensures r.Some? ==> Mir.FitsFrame(r.value)
  {
    GraphWellFormedIff(fn);
    var hir := IrBuilder.LowerFunctionExpr(fn);
    var func := new HirFunction(hir.value);
    var ssa := new SSABuilder();
    var entered := ssa.EveryBlockEntered(func);
    if !entered { return None; }
    ghost var decl := LoweredIsReady(fn);
    var ok := ssa.Build(func);
    assert ok && StrictSsa(func.Snapshot());
    ghost var f1 :| IsSsaOf(LowerFunction(fn), f1, func.Snapshot());
    var f := func.Snapshot();
    StrictConverts(f);
    LoweredHasMachineForm(fn);
    SsaKeepsMachineForm(LowerFunction(fn), f1, f);
    var mir := new MirBuilder();
    r := mir.LowerHirFunc(f);
    if r.Some? {
      forall args ensures SameBehaviour(fn, r.value, args) { CompiledBehavesAsSource(fn, f1, f, r.value, args); }
    }
  }

  /** `return !x;` */
  const RETURN_NOT: Source.Function :=
    Source.Function([0], Source.Return(Source.Unary(Source.UnaryOp.LogicalNot, Source.Variable(0))))

  /** It is well scoped and has no dead merge, and yet no machine function is a lowering of any SSA form of it. */
  lemma ReturnNotHasNoMachineCode(f1: Func, r: Func, m: Mir.Func)
    requires IsSsaOf(LowerFunction(RETURN_NOT), f1, r)
    ensures WellScopedFunction(RETURN_NOT) && MergesLive(RETURN_NOT.body) && !IsLowering(r, m)
  {
    var names := Names(RETURN_NOT.params, 1);
    assert RETURN_NOT.params[0] in names;
    LoweredHasMachineForm(RETURN_NOT);
    SsaKeepsMachineForm(LowerFunction(RETURN_NOT), f1, r);
  }
}
