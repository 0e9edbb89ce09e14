/** From variable-store HIR to machine IR: the two passes together keep every run. */
module Pipeline {
  import opened Graph
  import opened Hir
  import opened SsaForm
  import opened SsaCorrect
  import opened SsaStrict
  import opened PhiInsertion
  import opened MirLowering
  import opened MirCorrect
  import Mir

  /** No block branches to a block above it; loops are closed by jumps. */
  ghost predicate BranchesForward(f: Func) {
    forall b: nat, x: nat :: b < |f.blocks| && f.blocks[b].term.Branch? && x in Targets(f.blocks[b].term)
      ==> !Dom(f.Graph(), x, b)
  }

  /** What can be observed of a run: where it is and what it has printed, or how it ended. */
  ghost predicate SameObservations(s: State, m: Mir.State) {
    match s
    case At(b, fr) => m.At? && m.block == b && m.out == fr.out
    case Stopped(o, out) => m == Mir.Stopped(o, out)
  }

  lemma SsaKeepsTerms(f: Func, f1: Func, b: nat)
    requires PhisInserted(f, f1) && WellFormed(f1.Graph()) && b < |f.blocks|
    ensures Targets(Renamed(f1).blocks[b].term) == Targets(f.blocks[b].term)
    ensures Renamed(f1).blocks[b].term.Branch? <==> f.blocks[b].term.Branch?
  {
    BlockParts(f, f1, b);
    TermOperandsOfRenamed(EnvOut(f1, b), f1.blocks[b].term);
  }

  lemma SsaNoBranchBack(f: Func, f1: Func, r: Func)
    requires BranchesForward(f) && IsSsaOf(f, f1, r)
    ensures NoBranchBack(r)
  {
    SameGraph(f, f1);
    RenamedGraph(f1);
    forall b: nat, x: nat | b < |r.blocks| && r.blocks[b].term.Branch? && x in Targets(r.blocks[b].term)
      && HasPhis(r, x)
      ensures !Dom(r.Graph(), x, b)
    {
      SsaKeepsTerms(f, f1, b);
    }
  }

  /** Building SSA form keeps every run of the variable-store program. */
  lemma SsaPreservesRuns(f: Func, f1: Func, r: Func, decl: map<Var, nat>, params: seq<int>, n: nat)
    requires Ready(f, decl) && IsSsaOf(f, f1, r)
    ensures StatesAgree(f.lastValueId, Run(f, params, n), Run(r, params, n))
  {
    InsertionPrepares(f, f1, decl);
    InsertionPreservesRuns(f, f1, params, n);
    RenamingPreservesRuns(f1, decl, params, n);
  }

  /** End to end: for every well-scoped function, all inputs and any number of blocks executed, machine
      code has printed the same, is in the same block, or has ended in the same way. */
  lemma BackendPreservesRuns(f: Func, f1: Func, r: Func, m: Mir.Func, decl: map<Var, nat>, params: seq<int>, n: nat)
    requires Ready(f, decl) && BranchesForward(f) && IsSsaOf(f, f1, r) && IsLowering(r, m)
    ensures SameObservations(Run(f, params, n), Mir.Run(m, params, n))
  {
    SsaPreservesRuns(f, f1, r, decl, params, n);
    InsertionPrepares(f, f1, decl);
    RenamedIsStrict(f1, decl);
    SsaNoBranchBack(f, f1, r);
    LoweringPreservesRuns(r, m, params, n);
  }
}
