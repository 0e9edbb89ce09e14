/** Control-flow graphs, walks through them, and the theory of dominance. */
module Graph {

  /** A block is named by its position in the function's block list. */
  datatype Cfg = Cfg(entry: nat, preds: seq<seq<nat>>, succs: seq<seq<nat>>)
  {
    function Size(): nat { |preds| }

    predicate IsBlock(b: nat) { b < Size() }

    function Blocks(): (s: set<nat>)
      ensures forall b: nat :: b in s <==> IsBlock(b)
    {
      set b: nat | b < Size() && IsBlock(b)
    }

    predicate Edge(p: nat, b: nat) {
      p < Size() && b < Size() && p in preds[b]
    }
  }

  /** What dominator computation asks of a function: predecessor and successor lists mirror each other,
      nothing jumps back to the entry, and every block can be reached. */
  ghost predicate WellFormed(g: Cfg) {
    && g.entry < g.Size() == |g.succs|
    && g.preds[g.entry] == []
    && (forall b, p :: 0 <= b < g.Size() && p in g.preds[b] ==> p < g.Size())
    && (forall p, b :: 0 <= p < g.Size() && b in g.succs[p] ==> g.Edge(p, b))
    && (forall p: nat, b: nat :: g.Edge(p, b) ==> b in g.succs[p])
    && (forall b :: 0 <= b < g.Size() ==> Reachable(g, b))
  }

  ghost predicate IsWalk(g: Cfg, w: seq<nat>) {
    && |w| > 0
    && (forall i :: 0 <= i < |w| ==> w[i] < g.Size())
    && (forall i :: 0 < i < |w| ==> g.Edge(w[i - 1], w[i]))
  }

  ghost predicate PathTo(g: Cfg, w: seq<nat>, b: nat) {
    IsWalk(g, w) && w[0] == g.entry && w[|w| - 1] == b
  }

  ghost predicate Reachable(g: Cfg, b: nat) {
    exists w :: PathTo(g, w, b)
  }

  /** d dominates b when every path from the entry to b goes through d. */
  ghost predicate Dom(g: Cfg, d: nat, b: nat) {
    forall w :: PathTo(g, w, b) ==> d in w
  }

  ghost predicate SDom(g: Cfg, d: nat, b: nat) {
    d != b && Dom(g, d, b)
  }

  // ----- walks -----

  lemma SomePath(g: Cfg, b: nat) returns (w: seq<nat>)
    requires WellFormed(g) && b < g.Size()
    ensures PathTo(g, w, b)
  {
    assert Reachable(g, b);
    w :| PathTo(g, w, b);
  }

  lemma PathExtend(g: Cfg, w: seq<nat>, p: nat, b: nat)
    requires PathTo(g, w, p) && g.Edge(p, b)
    ensures PathTo(g, w + [b], b)
  {
    var e := w + [b];
    forall i | 0 < i < |e| ensures g.Edge(e[i - 1], e[i]) {
      if i < |w| { assert g.Edge(w[i - 1], w[i]); }
    }
  }

  lemma PathPrefix(g: Cfg, w: seq<nat>, b: nat, k: nat)
    requires PathTo(g, w, b) && k < |w|
    ensures PathTo(g, w[..k + 1], w[k])
  {
  }

  lemma WalkPart(g: Cfg, w: seq<nat>, i: nat, j: nat)
    requires IsWalk(g, w) && i < j <= |w|
    ensures IsWalk(g, w[i..j])
  {
    var v := w[i..j];
    forall k | 0 < k < |v| ensures g.Edge(v[k - 1], v[k]) {
      assert g.Edge(w[i + k - 1], w[i + k]);
    }
  }

  /** A path to the first block of a walk, continued along that walk. */
  lemma PathJoin(g: Cfg, w: seq<nat>, v: seq<nat>)
    requires IsWalk(g, v) && PathTo(g, w, v[0])
    ensures PathTo(g, w + v[1..], v[|v| - 1])
  {
    var e := w + v[1..];
    forall i | 0 < i < |e| ensures g.Edge(e[i - 1], e[i]) {
      if i < |w| {
        assert g.Edge(w[i - 1], w[i]);
      } else {
        assert e[i] == v[i - |w| + 1];
        assert e[i - 1] == v[i - |w|];
      }
    }
  }

  /** Some path reaches b without meeting d, when d does not dominate b. */
  lemma AvoidingPath(g: Cfg, d: nat, b: nat) returns (w: seq<nat>)
    requires !Dom(g, d, b)
    ensures PathTo(g, w, b) && d !in w
  {
    w :| PathTo(g, w, b) && d !in w;
  }

  // ----- dominance is a tree order -----

  lemma DomRefl(g: Cfg, b: nat)
    ensures Dom(g, b, b)
  {
    forall w | PathTo(g, w, b) ensures b in w {
      assert w[|w| - 1] == b;
    }
  }

  lemma DomTrans(g: Cfg, a: nat, b: nat, c: nat)
    requires Dom(g, a, b) && Dom(g, b, c)
    ensures Dom(g, a, c)
  {
    forall w | PathTo(g, w, c) ensures a in w {
      var k :| 0 <= k < |w| && w[k] == b;
      PathPrefix(g, w, c, k);
      assert a in w[..k + 1];
    }
  }

  lemma EntryDom(g: Cfg, b: nat)
    ensures Dom(g, g.entry, b)
  {
  }

  lemma OnlyEntryDomsEntry(g: Cfg, d: nat)
    requires WellFormed(g) && Dom(g, d, g.entry)
    ensures d == g.entry
  {
    assert PathTo(g, [g.entry], g.entry);
  }

  lemma DomInRange(g: Cfg, d: nat, b: nat)
    requires WellFormed(g) && Dom(g, d, b) && b < g.Size()
    ensures d < g.Size()
  {
    var w := SomePath(g, b);
  }

  lemma {:induction false} DomAntisym(g: Cfg, a: nat, b: nat)
    requires WellFormed(g) && b < g.Size() && Dom(g, a, b) && Dom(g, b, a)
    ensures a == b
  {
    var w := SomePath(g, b);
    var k := FirstOf(w, {a, b});
    PathPrefix(g, w, b, k);
    assert a in w[..k + 1] && b in w[..k + 1];
  }

  lemma FirstOf(w: seq<nat>, s: set<nat>) returns (k: nat)
    requires exists x :: x in w && x in s
    ensures k < |w| && w[k] in s
    ensures forall i :: 0 <= i < k ==> w[i] !in s
  {
    k := 0;
    while w[k] !in s
      invariant k < |w| && exists i :: k <= i < |w| && w[i] in s
      invariant forall i :: 0 <= i < k ==> w[i] !in s
      decreases |w| - k
    {
      k := k + 1;
    }
  }

  lemma LastOf(w: seq<nat>, s: set<nat>) returns (k: nat)
    requires exists x :: x in w && x in s
    ensures k < |w| && w[k] in s
    ensures forall i :: k < i < |w| ==> w[i] !in s
  {
    k := |w| - 1;
    while w[k] !in s
      invariant k < |w| && exists i :: 0 <= i <= k && w[i] in s
      invariant forall i :: k < i < |w| ==> w[i] !in s
      decreases k
    {
      k := k - 1;
    }
  }

  /** Replacing the head of a path: if b is on a path to c after which a no longer occurs, and b can be
      reached without a, then a does not dominate c. */
  lemma Detour(g: Cfg, w: seq<nat>, c: nat, k: nat, a: nat)
    requires PathTo(g, w, c) && k < |w| && !Dom(g, a, w[k])
    requires forall i :: k < i < |w| ==> w[i] != a
    ensures !Dom(g, a, c)
  {
    var q := AvoidingPath(g, a, w[k]);
    var v := w[k..|w|];
    WalkPart(g, w, k, |w|);
    PathJoin(g, q, v);
    assert a !in q + v[1..];
  }

  /** The dominators of a block form a chain. */
  lemma DomChain(g: Cfg, a: nat, b: nat, c: nat)
    requires WellFormed(g) && c < g.Size() && Dom(g, a, c) && Dom(g, b, c)
    ensures Dom(g, a, b) || Dom(g, b, a)
  {
    var w := SomePath(g, c);
    assert a in w;
    var k := LastOf(w, {a, b});
    if !Dom(g, a, b) && !Dom(g, b, a) {
      DomRefl(g, a);
      Detour(g, w, c, k, if w[k] == a then b else a);
    }
  }

  /** A strict dominator of a block dominates each of its predecessors. */
  lemma SDomPred(g: Cfg, d: nat, p: nat, b: nat)
    requires SDom(g, d, b) && g.Edge(p, b)
    ensures Dom(g, d, p)
  {
    forall w | PathTo(g, w, p) ensures d in w {
      PathExtend(g, w, p, b);
      assert d in w + [b];
    }
  }

  /** The other way round: what dominates every predecessor of a non-entry block dominates that block,
      and strictly. */
  lemma DomPredsSDom(g: Cfg, d: nat, b: nat)
    requires WellFormed(g) && b < g.Size() && b != g.entry
    requires forall p :: g.Edge(p, b) ==> Dom(g, d, p)
    ensures SDom(g, d, b)
  {
    forall w | PathTo(g, w, b) ensures d in w {
      assert g.Edge(w[|w| - 2], w[|w| - 1]);
      PathPrefix(g, w, b, |w| - 2);
      assert d in w[..|w| - 1];
    }
    var w := SomePath(g, b);
    var k := FirstOf(w, {b});
    assert k > 0;
    assert g.Edge(w[k - 1], w[k]);
    PathPrefix(g, w, b, k - 1);
    assert d in w[..k];
  }

  lemma SDomTrans(g: Cfg, a: nat, b: nat, c: nat)
    requires WellFormed(g) && c < g.Size() && b < g.Size()
    requires Dom(g, a, b) && Dom(g, b, c) && (a != b || b != c)
    ensures SDom(g, a, c)
  {
    DomTrans(g, a, b, c);
    if a == c { DomAntisym(g, a, b); }
  }

  // ----- immediate dominators -----

  /** The code's own test: d strictly dominates b and every other strict dominator of b dominates d. */
  ghost predicate IsIDom(g: Cfg, d: nat, b: nat) {
    SDom(g, d, b) && forall x :: SDom(g, x, b) && x != d ==> Dom(g, x, d)
  }

  /** The dominators of b, as a finite set. */
  ghost function Doms(g: Cfg, b: nat): (s: set<nat>)
    ensures forall d: nat :: d in s <==> d < g.Size() && Dom(g, d, b)
  {
    set d: nat | d < g.Size() && Dom(g, d, b)
  }

  lemma IDomUnique(g: Cfg, d: nat, e: nat, b: nat)
    requires WellFormed(g) && b < g.Size() && IsIDom(g, d, b) && IsIDom(g, e, b)
    ensures d == e
  {
    if d != e {
      DomInRange(g, d, b);
      DomAntisym(g, e, d);
    }
  }

  /** A nonempty set of dominators of b has a member that all the others dominate. */
  lemma {:induction false} LowestOf(g: Cfg, b: nat, s: set<nat>) returns (d: nat)
    requires WellFormed(g) && b < g.Size() && s != {} && s <= Doms(g, b)
    ensures d in s && forall x :: x in s ==> Dom(g, x, d)
    decreases s
  {
    var y :| y in s;
    if s == {y} {
      d := y;
      DomRefl(g, y);
    } else {
      var e := LowestOf(g, b, s - {y});
      DomChain(g, y, e, b);
      if Dom(g, y, e) {
        d := e;
      } else {
        d := y;
        DomRefl(g, y);
        forall x | x in s && x != y ensures Dom(g, x, y) { DomTrans(g, x, e, y); }
      }
    }
  }

  /** Every block but the entry has an immediate dominator. */
  lemma IDomExists(g: Cfg, b: nat) returns (d: nat)
    requires WellFormed(g) && b < g.Size() && b != g.entry
    ensures d < g.Size() && IsIDom(g, d, b)
  {
    EntryDom(g, b);
    var s := Doms(g, b) - {b};
    assert g.entry in s;
    d := LowestOf(g, b, s);
    forall x | SDom(g, x, b) && x != d ensures Dom(g, x, d) {
      DomInRange(g, x, b);
      assert x in s;
    }
  }

  lemma IDomExistsSomewhere(g: Cfg, b: nat)
    requires WellFormed(g) && b < g.Size() && b != g.entry
    ensures exists d: nat :: d < g.Size() && IsIDom(g, d, b)
  {
    var d := IDomExists(g, b);
  }

  ghost function IDom(g: Cfg, b: nat): (d: nat)
    requires WellFormed(g) && b < g.Size() && b != g.entry
    ensures d < g.Size() && IsIDom(g, d, b)
  {
    IDomExistsSomewhere(g, b);
    var d: nat :| d < g.Size() && IsIDom(g, d, b);
    d
  }

  /** Climbing to the immediate dominator shrinks the set of dominators. */
  lemma IDomShrinks(g: Cfg, b: nat)
    requires WellFormed(g) && b < g.Size() && b != g.entry
    ensures Doms(g, IDom(g, b)) == Doms(g, b) - {b}
    ensures |Doms(g, IDom(g, b))| < |Doms(g, b)|
  {
    var d := IDom(g, b);
    DomRefl(g, b);
    DomRefl(g, d);
    forall x | x in Doms(g, d) ensures x in Doms(g, b) - {b} {
      SDomTrans(g, x, d, b);
    }
    assert b in Doms(g, b);
    assert Doms(g, d) == Doms(g, b) - {b};
  }

  /** Ancestry in the dominator tree: d is reached from b by climbing immediate dominators. */
  ghost predicate TreeAncestor(g: Cfg, d: nat, b: nat)
    requires WellFormed(g) && b < g.Size()
    decreases |Doms(g, b)|
  {
    d == b || (b != g.entry && (IDomShrinks(g, b); TreeAncestor(g, d, IDom(g, b))))
  }

  /** Dominator-tree ancestry is dominance. */
  lemma {:induction false} TreeIsDominance(g: Cfg, d: nat, b: nat)
    requires WellFormed(g) && b < g.Size()
    ensures TreeAncestor(g, d, b) <==> Dom(g, d, b)
    decreases |Doms(g, b)|
  {
    DomRefl(g, b);
    if d != b {
      if b == g.entry {
        if Dom(g, d, b) { OnlyEntryDomsEntry(g, d); }
      } else {
        IDomShrinks(g, b);
        TreeIsDominance(g, d, IDom(g, b));
        DomRefl(g, IDom(g, b));
        if Dom(g, d, IDom(g, b)) { DomTrans(g, d, IDom(g, b), b); }
      }
    }
  }

  /** A strict dominator of b dominates b's immediate dominator. */
  lemma SDomIDom(g: Cfg, x: nat, b: nat)
    requires WellFormed(g) && b < g.Size() && b != g.entry && SDom(g, x, b)
    ensures Dom(g, x, IDom(g, b))
  {
    if x == IDom(g, b) { DomRefl(g, x); }
  }

  /** Below x on the way to a block it strictly dominates there is a tree child of x. */
  lemma {:induction false} ChildTowards(g: Cfg, x: nat, b: nat) returns (z: nat)
    requires WellFormed(g) && b < g.Size() && SDom(g, x, b)
    ensures z < g.Size() && z != g.entry && IDom(g, z) == x && Dom(g, z, b)
    decreases |Doms(g, b)|
  {
    if b == g.entry { OnlyEntryDomsEntry(g, x); }
    DomRefl(g, b);
    if IDom(g, b) == x {
      z := b;
    } else {
      IDomShrinks(g, b);
      SDomIDom(g, x, b);
      z := ChildTowards(g, x, IDom(g, b));
      DomTrans(g, z, IDom(g, b), b);
    }
  }
}
