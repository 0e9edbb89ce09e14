/** Dominance frontiers and the iterated frontier that places phis. */
module Frontier {
  import opened Graph

  /** y is in the frontier of x: x dominates a predecessor of y without strictly dominating y. */
  ghost predicate InDF(g: Cfg, x: nat, y: nat) {
    !SDom(g, x, y) && exists p: nat :: g.Edge(p, y) && Dom(g, x, p)
  }

  ghost function DF(g: Cfg, x: nat): (s: set<nat>)
    ensures forall y: nat :: y in s <==> y < g.Size() && InDF(g, x, y)
  {
    set y: nat | y < g.Size() && InDF(g, x, y)
  }

  // ----- the bottom-up rule: local successors and what tree children pass up -----

  lemma LocalFrontier(g: Cfg, x: nat, y: nat)
    requires WellFormed(g) && x < g.Size() && g.Edge(x, y)
    ensures y != g.entry
    ensures InDF(g, x, y) <==> IDom(g, y) != x
  {
    DomRefl(g, x);
    if SDom(g, x, y) {
      SDomIDom(g, x, y);
      SDomPred(g, IDom(g, y), x, y);
      DomAntisym(g, x, IDom(g, y));
    }
  }

  lemma UpFrontier(g: Cfg, x: nat, z: nat, y: nat)
    requires WellFormed(g) && z < g.Size() && z != g.entry && IDom(g, z) == x
    requires y < g.Size() && InDF(g, z, y)
    ensures y != g.entry
    ensures InDF(g, x, y) <==> IDom(g, y) != x
  {
    var p: nat :| g.Edge(p, y) && Dom(g, z, p);
    DomTrans(g, x, z, p);
    if SDom(g, x, y) && IDom(g, y) != x {
      var d := IDom(g, y);
      SDomIDom(g, x, y);
      SDomPred(g, d, p, y);
      DomChain(g, d, z, p);
      if Dom(g, z, d) {
        SDomTrans(g, z, d, y);
      } else {
        DomRefl(g, d);
        SDomIDom(g, d, z);
        DomAntisym(g, d, x);
      }
    }
  }

  /** Every frontier block comes from one of the two rules. */
  lemma FrontierSource(g: Cfg, x: nat, y: nat)
    requires WellFormed(g) && x < g.Size() && y < g.Size() && InDF(g, x, y)
    ensures y != g.entry && IDom(g, y) != x
    ensures g.Edge(x, y) || exists z: nat :: z < g.Size() && z != g.entry && IDom(g, z) == x && InDF(g, z, y)
  {
    var p: nat :| g.Edge(p, y) && Dom(g, x, p);
    if p != x {
      var z := ChildTowards(g, x, p);
      if SDom(g, z, y) { SDomTrans(g, x, z, y); }
      assert InDF(g, z, y);
    }
  }

  /** The entry strictly dominates everything else, so its frontier is empty. */
  lemma EntryFrontierEmpty(g: Cfg)
    requires WellFormed(g)
    ensures DF(g, g.entry) == {}
  {
    forall y: nat | y < g.Size() ensures !InDF(g, g.entry, y) {
      if y != g.entry { EntryDom(g, y); }
    }
  }

  // ----- the runner rule: climb from each predecessor to the immediate dominator -----

  /** A block with a single predecessor is in no frontier. */
  lemma SinglePredNoFrontier(g: Cfg, p: nat, y: nat)
    requires WellFormed(g) && y < g.Size() && g.Edge(p, y)
    requires forall q: nat :: g.Edge(q, y) ==> q == p
    ensures forall x: nat :: !InDF(g, x, y)
  {
    forall x: nat ensures !InDF(g, x, y) {
      if Dom(g, x, p) { DomPredsSDom(g, x, y); }
    }
  }

  /** For a block on the climb from p to y's immediate dominator, being in the frontier relation with y is
      exactly not having arrived. */
  lemma RunnerTest(g: Cfg, r: nat, p: nat, y: nat)
    requires WellFormed(g) && y < g.Size() && g.Edge(p, y)
    requires Dom(g, IDom(g, y), r) && Dom(g, r, p)
    ensures r != IDom(g, y) <==> InDF(g, r, y)
    ensures r != IDom(g, y) ==> r < g.Size() && r != g.entry && Dom(g, IDom(g, y), IDom(g, r)) && Dom(g, IDom(g, r), p)
  {
    DomInRange(g, r, p);
    var d := IDom(g, y);
    if r != d {
      if SDom(g, r, y) {
        SDomIDom(g, r, y);
        DomAntisym(g, r, d);
      }
      if r == g.entry { OnlyEntryDomsEntry(g, d); }
      SDomIDom(g, d, r);
      DomTrans(g, IDom(g, r), r, p);
    }
  }

  /** A block on the climb from y's predecessor p to y's immediate dominator. */
  ghost predicate OnClimb(g: Cfg, r: nat, p: nat, y: nat)
    requires WellFormed(g) && g.Edge(p, y)
  {
    y != g.entry && r < g.Size() && Dom(g, IDom(g, y), r) && Dom(g, r, p)
  }

  lemma ClimbStep(g: Cfg, r: nat, p: nat, y: nat)
    requires WellFormed(g) && g.Edge(p, y) && OnClimb(g, r, p, y) && r != IDom(g, y)
    ensures InDF(g, r, y) && r != g.entry && OnClimb(g, IDom(g, r), p, y)
    ensures |Doms(g, IDom(g, r))| < |Doms(g, r)|
    ensures forall x: nat :: Dom(g, x, r) && x != r ==> Dom(g, x, IDom(g, r))
  {
    RunnerTest(g, r, p, y);
    IDomShrinks(g, r);
    forall x: nat | Dom(g, x, r) && x != r ensures Dom(g, x, IDom(g, r)) { SDomIDom(g, x, r); }
  }

  lemma ClimbEnds(g: Cfg, r: nat, y: nat)
    requires WellFormed(g) && y < g.Size() && y != g.entry && r == IDom(g, y)
    ensures forall x: nat :: Dom(g, x, r) ==> SDom(g, x, y)
  {
    forall x: nat | Dom(g, x, r) ensures SDom(g, x, y) { SDomTrans(g, x, r, y); }
  }

  // ----- iterated frontier -----

  ghost predicate Closed(g: Cfg, defs: set<nat>, s: set<nat>) {
    forall x: nat :: x in defs || x in s ==> DF(g, x) <= s
  }

  /** The least set that contains the frontier of every definition and of every member. */
  ghost function IDF(g: Cfg, defs: set<nat>): set<nat> {
    set y: nat | y < g.Size() && InEveryClosed(g, defs, y)
  }

  ghost predicate InEveryClosed(g: Cfg, defs: set<nat>, y: nat) {
    forall s: set<nat> :: Closed(g, defs, s) ==> y in s
  }

  lemma IDFClosed(g: Cfg, defs: set<nat>)
    ensures Closed(g, defs, IDF(g, defs))
  {
    forall x: nat, y: nat | (x in defs || x in IDF(g, defs)) && y in DF(g, x)
      ensures y in IDF(g, defs)
    {
      forall s: set<nat> | Closed(g, defs, s) ensures y in s {
        assert x in defs || x in s;
      }
    }
  }

  lemma IDFLeast(g: Cfg, defs: set<nat>, s: set<nat>)
    requires WellFormed(g) && Closed(g, defs, s)
    ensures IDF(g, defs) <= s
  {
  }

  /** Adding frontier blocks either adds nothing or leaves fewer blocks outside. */
  lemma FewerLeft(g: Cfg, old_: set<nat>, new_: set<nat>, ys: set<nat>)
    requires new_ == old_ + ys && ys <= g.Blocks()
    ensures new_ == old_ || g.Blocks() - new_ < g.Blocks() - old_
  {
    if new_ != old_ {
      var y :| y in new_ && y !in old_;
      assert y in g.Blocks() - old_ && y !in g.Blocks() - new_;
    }
  }

  /** Between two rounds of the worklist: every candidate is in the iterated frontier, and whatever has
      left the worklist has its whole frontier among the candidates. */
  ghost predicate WorkRight(g: Cfg, defs: set<nat>, hasPhi: set<nat>, worklist: seq<nat>) {
    && hasPhi <= IDF(g, defs)
    && (forall x: nat :: x in worklist ==> x in defs || x in hasPhi)
    && (forall x: nat :: (x in defs || x in hasPhi) && x !in worklist ==> DF(g, x) <= hasPhi)
  }

  /** Taking X off the worklist and queueing the new blocks of its frontier keeps the invariant. */
  lemma ExpandKeeps(g: Cfg, defs: set<nat>, hasPhi: set<nat>, worklist: seq<nat>, X: nat,
                    more: set<nat>, work: seq<nat>)
    requires worklist != [] && X == worklist[|worklist| - 1]
    requires WorkRight(g, defs, hasPhi, worklist)
    requires more == hasPhi + DF(g, X)
    requires forall x: nat :: x in work <==> x in worklist[..|worklist| - 1] || x in more - hasPhi
    ensures WorkRight(g, defs, more, work)
    ensures more == hasPhi || g.Blocks() - more < g.Blocks() - hasPhi
  {
    assert worklist == worklist[..|worklist| - 1] + [X];
    assert X in worklist;
    IDFClosed(g, defs);
    FewerLeft(g, hasPhi, more, DF(g, X));
  }

  /** The block d of a walk is the last definition met; a walk is definition-free when no inner block
      defines. Walking from a definition without a phi in between, some definition or phi block dominates
      the place reached. */
  lemma {:induction false} DominatingSource(g: Cfg, defs: set<nat>, w: seq<nat>) returns (k: nat)
    requires WellFormed(g) && IsWalk(g, w) && w[0] in defs
    ensures k < |w| && Dom(g, w[k], w[|w| - 1])
    ensures k == 0 || w[k] in IDF(g, defs)
    decreases |w|
  {
    var last := |w| - 1;
    if last == 0 {
      k := 0;
      DomRefl(g, w[0]);
    } else {
      var v := w[0..last];
      WalkPart(g, w, 0, last);
      k := DominatingSource(g, defs, v);
      assert g.Edge(w[last - 1], w[last]);
      if !Dom(g, w[k], w[last]) {
        IDFClosed(g, defs);
        assert InDF(g, w[k], w[last]);
        assert w[last] in DF(g, w[k]);
        k := last;
        DomRefl(g, w[last]);
      }
    }
  }

  /** Placement is sufficient: a block that gets no phi has no definition strictly between its immediate
      dominator and itself, on any path. */
  lemma NoPhiNoDefinition(g: Cfg, defs: set<nat>, b: nat, w: seq<nat>, i: nat)
    requires WellFormed(g) && b < g.Size() && b != g.entry && b !in IDF(g, defs)
    requires IsWalk(g, w) && w[0] == IDom(g, b) && w[|w| - 1] == b
    requires forall j :: 0 < j < |w| ==> w[j] != IDom(g, b)
    requires 0 < i < |w| - 1
    ensures w[i] !in defs
  {
    if w[i] in defs {
      var last := |w| - 1;
      WalkPart(g, w, i, last);
      var k := DominatingSource(g, defs, w[i..last]);
      var z := w[i + k];
      assert g.Edge(w[last - 1], w[last]);
      IDFClosed(g, defs);
      assert b !in DF(g, z);
      WalkPart(g, w, i + k, |w|);
      MeetsIDom(g, b, w[i + k..|w|]);
    }
  }

  /** A walk from a strict dominator of b to b meets b's immediate dominator. */
  lemma MeetsIDom(g: Cfg, b: nat, w: seq<nat>)
    requires WellFormed(g) && b < g.Size() && b != g.entry
    requires IsWalk(g, w) && w[|w| - 1] == b && SDom(g, w[0], b)
    ensures IDom(g, b) in w
  {
    var d := IDom(g, b);
    SDomIDom(g, w[0], b);
    if w[0] != d {
      if Dom(g, d, w[0]) { DomAntisym(g, w[0], d); }
      var q := AvoidingPath(g, d, w[0]);
      PathJoin(g, q, w);
      assert d in q + w[1..];
    }
  }
}
