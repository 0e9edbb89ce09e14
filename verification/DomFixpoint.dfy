/** Dominators as the greatest fixpoint of the data-flow equations. */
module DomFixpoint {
  import opened Graph

  // ----- dominators by fixpoint -----

  /** What the fixpoint needs: every block but the entry has a predecessor. */
  ghost predicate DomReady(g: Cfg) {
    && g.entry < g.Size()
    && (forall b :: 0 <= b < g.Size() && b != g.entry ==> g.preds[b] != [])
    && (forall b, p :: 0 <= b < g.Size() && p in g.preds[b] ==> p < g.Size())
  }

  ghost predicate DomsRight(g: Cfg, dom: map<nat, set<nat>>) {
    forall b: nat :: b < g.Size() ==> b in dom && dom[b] == Doms(g, b)
  }

  /** Nothing that dominates is ever lost. */
  ghost predicate Covers(g: Cfg, dom: map<nat, set<nat>>) {
    forall b: nat :: b < g.Size() ==> b in dom && b in dom[b] && Doms(g, b) <= dom[b] <= g.Blocks()
  }

  /** The set of b is at least what its predecessors ask for. */
  ghost predicate NotBelow(g: Cfg, dom: map<nat, set<nat>>, b: nat)
    requires Covers(g, dom) && b < g.Size()
  {
    forall x: nat :: (forall p: nat :: g.Edge(p, b) ==> x in dom[p]) ==> x in dom[b]
  }

  ghost predicate NoneBelow(g: Cfg, dom: map<nat, set<nat>>)
    requires Covers(g, dom)
  {
    forall b: nat :: b < g.Size() && b != g.entry ==> NotBelow(g, dom, b)
  }

  ghost predicate FixedAt(g: Cfg, dom: map<nat, set<nat>>, b: nat)
    requires Covers(g, dom) && b < g.Size()
  {
    forall x: nat, p: nat :: x in dom[b] && x != b && g.Edge(p, b) ==> x in dom[p]
  }

  ghost function Total(g: Cfg, dom: map<nat, set<nat>>, n: nat): nat
    requires Covers(g, dom) && n <= g.Size()
  {
    if n == 0 then 0 else Total(g, dom, n - 1) + |dom[n - 1]|
  }

  lemma {:induction false} TotalDrops(g: Cfg, dom: map<nat, set<nat>>, b: nat, s: set<nat>, n: nat)
    requires Covers(g, dom) && Covers(g, dom[b := s]) && b < g.Size() && s < dom[b] && n <= g.Size()
    ensures Total(g, dom[b := s], n) == Total(g, dom, n) - (if b < n then |dom[b]| - |s| else 0)
  {
    if n > 0 { TotalDrops(g, dom, b, s, n - 1); }
  }

  /** A predecessor's dominators reach b. */
  lemma StrictFromPreds(g: Cfg, dom: map<nat, set<nat>>, b: nat, d: nat, p: nat)
    requires Covers(g, dom) && b < g.Size() && d in Doms(g, b) && d != b && g.Edge(p, b)
    ensures d in dom[p]
  {
    SDomPred(g, d, p, b);
    assert d in Doms(g, p);
  }

  /** Replacing b's set by what its predecessors ask for keeps every invariant. */
  lemma UpdateKeeps(g: Cfg, dom: map<nat, set<nat>>, b: nat, s: set<nat>)
    requires DomReady(g) && Covers(g, dom) && NoneBelow(g, dom) && b < g.Size() && b != g.entry
    requires forall x: nat :: x in s <==> x == b || forall p: nat :: g.Edge(p, b) ==> x in dom[p]
    ensures s <= dom[b]
    ensures Covers(g, dom[b := s]) && NoneBelow(g, dom[b := s])
  {
    assert NotBelow(g, dom, b);
    var dom' := dom[b := s];
    forall d | d in Doms(g, b) ensures d in s {
      if d != b {
        forall p: nat | g.Edge(p, b) ensures d in dom[p] { StrictFromPreds(g, dom, b, d, p); }
      }
    }
    assert Covers(g, dom');
    forall c: nat | c < g.Size() && c != g.entry ensures NotBelow(g, dom', c) {
      forall x: nat | forall p: nat :: g.Edge(p, c) ==> x in dom'[p] ensures x in dom'[c] {
        assert NotBelow(g, dom, c);
        assert forall p: nat :: g.Edge(p, c) ==> x in dom[p];
      }
    }
  }

  /** At a fixpoint nothing but dominators is left. */
  lemma {:induction false} OnlyDominators(g: Cfg, dom: map<nat, set<nat>>, w: seq<nat>, d: nat)
    requires Covers(g, dom) && g.entry < g.Size() && dom[g.entry] == {g.entry}
    requires forall b: nat :: b < g.Size() && b != g.entry ==> FixedAt(g, dom, b)
    requires |w| > 0 && PathTo(g, w, w[|w| - 1]) && d in dom[w[|w| - 1]]
    ensures d in w
    decreases |w|
  {
    var b := w[|w| - 1];
    if b != g.entry && d != b {
      var k := |w| - 2;
      assert g.Edge(w[k], w[k + 1]);
      assert FixedAt(g, dom, b);
      PathPrefix(g, w, b, k);
      OnlyDominators(g, dom, w[..k + 1], d);
    }
  }

  lemma FixpointIsDominance(g: Cfg, dom: map<nat, set<nat>>)
    requires Covers(g, dom) && g.entry < g.Size() && dom[g.entry] == {g.entry}
    requires forall b: nat :: b < g.Size() && b != g.entry ==> FixedAt(g, dom, b)
    ensures DomsRight(g, dom)
  {
    forall b: nat | b < g.Size() ensures dom[b] == Doms(g, b) {
      forall d | d in dom[b] ensures d in Doms(g, b) {
        forall w | PathTo(g, w, b) ensures d in w { OnlyDominators(g, dom, w, d); }
      }
    }
  }

  lemma InitialCovers(g: Cfg, dom: map<nat, set<nat>>)
    requires DomReady(g)
    requires forall b: nat :: b < g.Size() ==> b in dom && dom[b] == if b == g.entry then {g.entry} else g.Blocks()
    ensures Covers(g, dom) && NoneBelow(g, dom)
  {
    forall b: nat | b < g.Size() ensures Doms(g, b) <= dom[b] {
      if b == g.entry {
        forall d | d in Doms(g, b) ensures d == g.entry { assert PathTo(g, [g.entry], g.entry); }
      }
    }
    assert Covers(g, dom);
    forall b: nat | b < g.Size() && b != g.entry ensures NotBelow(g, dom, b) {
      forall x: nat | forall p: nat :: g.Edge(p, b) ==> x in dom[p] ensures x in dom[b] {
        assert g.preds[b][0] in g.preds[b];
        assert g.Edge(g.preds[b][0], b);
      }
    }
  }

  /** {b} and the intersection of the predecessors' sets. */
  method MeetOfPreds(g: Cfg, dom: map<nat, set<nat>>, b: nat) returns (newDom: set<nat>)
    requires DomReady(g) && Covers(g, dom) && b < g.Size() && b != g.entry
    ensures forall x: nat :: x in newDom <==> x == b || forall p: nat :: g.Edge(p, b) ==> x in dom[p]
  {
    var preds := g.preds[b];
    forall k | 0 <= k < |preds| ensures g.Edge(preds[k], b) { assert preds[k] in g.preds[b]; }
    newDom := dom[preds[0]];
    var i := 1;
    while i < |preds|
      invariant 1 <= i <= |preds|
      invariant forall x: nat :: x in newDom <==> forall k :: 0 <= k < i ==> x in dom[preds[k]]
    {
      newDom := dom[preds[i]] * newDom;
      i := i + 1;
    }
    forall x: nat ensures x in newDom <==> forall p: nat :: g.Edge(p, b) ==> x in dom[p] {
      if x in newDom {
        forall p: nat | g.Edge(p, b) ensures x in dom[p] {}
      }
      if forall p: nat :: g.Edge(p, b) ==> x in dom[p] {
        forall k | 0 <= k < |preds| ensures x in dom[preds[k]] {}
      }
    }
    newDom := newDom + {b};
  }
}
