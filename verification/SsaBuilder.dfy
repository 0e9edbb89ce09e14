/** The SSA construction pass: dominators, frontiers, phi placement, phi insertion and renaming. */
module SsaBuilder {
  import opened Wrappers
  import opened Graph
  import opened Frontier
  import opened DomFixpoint
  import opened Hir
  import opened SsaForm
  import opened RenamePlan
  import opened PhiPlan
  import opened SsaCorrect
  import opened PhiInsertion
  import opened SsaStrict

  /** A function under construction; passes rewrite its blocks in place. */
  class HirFunction {
    var entry: nat
    var blocks: seq<Block>
    var lastValueId: nat

    function Snapshot(): Func
      reads this
    {
      Func(entry, blocks, lastValueId)
    }

    constructor (f: Func)
      ensures Snapshot() == f
    {
      entry, blocks, lastValueId := f.entry, f.blocks, f.lastValueId;
    }
  }

  ghost predicate IDomsRight(g: Cfg, idom: map<nat, Option<nat>>)
    requires WellFormed(g)
  {
    idom.Keys == g.Blocks() && forall b :: b in idom ==> idom[b] == if b == g.entry then None else Some(IDom(g, b))
  }

  ghost predicate TreeRight(g: Cfg, domTree: map<nat, set<nat>>)
    requires WellFormed(g)
  {
    forall x: nat, c: nat :: c in SetAt(domTree, x) <==> IsChild(g, x, c)
  }

  ghost predicate FrontiersRight(g: Cfg, df: map<nat, set<nat>>) {
    forall x: nat :: x < g.Size() ==> SetAt(df, x) == DF(g, x)
  }

  ghost predicate DefsRight(f: Func, defBlocks: map<Var, set<nat>>) {
    forall v :: SetAt(defBlocks, v) == DefBlocks(f, v)
  }

  ghost function DefsBefore(f: Func, n: nat, v: Var): set<nat>
    requires n <= |f.blocks|
  {
    set b | 0 <= b < n && v in f.blocks[b].defs
  }

  ghost predicate CandidatesRight(f: Func, phiBlocks: map<nat, set<Var>>) {
    && (forall b :: b in phiBlocks ==> b < |f.blocks|)
    && (forall b: nat, v: Var :: v in SetAt(phiBlocks, b) <==> b in IDF(f.Graph(), DefBlocks(f, v)))
  }

  class SSABuilder {
    var dom: map<nat, set<nat>>
    var idom: map<nat, Option<nat>>
    var domTree: map<nat, set<nat>>
    var df: map<nat, set<nat>>
    var defBlocks: map<Var, set<nat>>
    var phiBlocks: map<nat, set<Var>>
    var varStack: Stacks

    constructor () {
      dom, idom, domTree, df, defBlocks, phiBlocks, varStack := map[], map[], map[], map[], map[], map[], map[];
    }

    /** One sweep over the blocks. */
    method SweepDoms(g: Cfg) returns (changed: bool)
      requires DomReady(g) && Covers(g, dom) && NoneBelow(g, dom) && dom[g.entry] == {g.entry}
      modifies this`dom
      ensures Covers(g, dom) && NoneBelow(g, dom) && dom[g.entry] == {g.entry}
      ensures changed ==> Total(g, dom, g.Size()) < Total(g, old(dom), g.Size())
      ensures !changed ==> dom == old(dom) && forall b: nat :: b < g.Size() && b != g.entry ==> FixedAt(g, dom, b)
    {
      changed := false;
      var block: nat := 0;
      while block < g.Size()
        invariant block <= g.Size()
        invariant Covers(g, dom) && NoneBelow(g, dom) && dom[g.entry] == {g.entry}
        invariant changed ==> Total(g, dom, g.Size()) < Total(g, old(dom), g.Size())
        invariant !changed ==> dom == old(dom) && forall b: nat :: b < block && b != g.entry ==> FixedAt(g, dom, b)
      {
        if block != g.entry {
          var newDom := MeetOfPreds(g, dom, block);
          UpdateKeeps(g, dom, block, newDom);
          if newDom != dom[block] {
            changed := true;
            SubsetSize(newDom, dom[block]);
            TotalDrops(g, dom, block, newDom, g.Size());
            dom := dom[block := newDom];
          }
        }
        block := block + 1;
      }
    }

    /** What dominator computation asserts of its input. */
    method EveryBlockEntered(func: HirFunction) returns (ok: bool)
      ensures ok <==> Entered(func.Snapshot())
    {
      var b: nat := 0;
      while b < |func.blocks|
        invariant b <= |func.blocks|
        invariant forall c: nat :: c < b && c != func.entry ==> func.blocks[c].preds != []
      {
        if b != func.entry && func.blocks[b].preds == [] { return false; }
        b := b + 1;
      }
      return true;
    }

    /** Dominators by iteration from above: D ends in dom[B] exactly when every path to B goes through D. */
    method ComputeDoms(func: HirFunction)
      requires DomReady(func.Snapshot().Graph())
      modifies this`dom
      ensures DomsRight(func.Snapshot().Graph(), dom)
    {
      var g := func.Snapshot().Graph();
      var i: nat := 0;
      while i < g.Size()
        invariant i <= g.Size()
        invariant forall b: nat :: b < i ==> b in dom && dom[b] == if b == g.entry then {g.entry} else g.Blocks()
      {
        dom := dom[i := if i == g.entry then {g.entry} else g.Blocks()];
        i := i + 1;
      }
      InitialCovers(g, dom);
      var changed := true;
      while changed
        invariant Covers(g, dom) && NoneBelow(g, dom) && dom[g.entry] == {g.entry}
        invariant !changed ==> forall b: nat :: b < g.Size() && b != g.entry ==> FixedAt(g, dom, b)
        decreases Total(g, dom, g.Size()), changed
      {
        changed := SweepDoms(g);
      }
      FixpointIsDominance(g, dom);
    }

    /** The strict dominator that every other strict dominator dominates. */
    method ComputeIDoms(func: HirFunction)
      requires WellFormed(func.Snapshot().Graph()) && DomsRight(func.Snapshot().Graph(), dom)
      modifies this`idom
      ensures IDomsRight(func.Snapshot().Graph(), idom)
    {
      var g := func.Snapshot().Graph();
      idom := map[];
      var block: nat := 0;
      while block < g.Size()
        invariant block <= g.Size()
        invariant forall b: nat :: b in idom <==> b < block
        invariant forall b: nat :: b < block ==> idom[b] == if b == g.entry then None else Some(IDom(g, b))
      {
        if block == g.entry {
          idom := idom[block := None];
        } else {
          var candidate := ClosestDom(g, block);
          idom := idom[block := Some(candidate)];
        }
        block := block + 1;
      }
    }

    method ClosestDom(g: Cfg, block: nat) returns (candidate: nat)
      requires WellFormed(g) && DomsRight(g, dom) && block < g.Size() && block != g.entry
      ensures candidate == IDom(g, block)
    {
      var rest := dom[block];
      ghost var answer := IDom(g, block);
      while true
        invariant answer in rest && rest <= dom[block]
        decreases rest
      {
        var d :| d in rest;
        rest := rest - {d};
        if d != block {
          var dominatedByAll := DominatedByAll(g, block, d);
          if dominatedByAll {
            assert IsIDom(g, d, block) by {
              forall x: nat | SDom(g, x, block) && x != d ensures Dom(g, x, d) {
                DomInRange(g, x, block);
                assert x in dom[block];
              }
            }
            IDomUnique(g, d, answer, block);
            return d;
          }
        }
      }
    }

    method DominatedByAll(g: Cfg, block: nat, d: nat) returns (all: bool)
      requires WellFormed(g) && DomsRight(g, dom) && block < g.Size() && d in dom[block]
      ensures all <==> forall x: nat :: x in dom[block] && x != block && x != d ==> Dom(g, x, d)
    {
      var others := dom[block];
      while others != {}
        invariant others <= dom[block]
        invariant forall x: nat :: x in dom[block] - others && x != block && x != d ==> Dom(g, x, d)
        decreases others
      {
        var x :| x in others;
        others := others - {x};
        if x != block && x != d {
          if x !in dom[d] { return false; }
        }
      }
      return true;
    }

    method BuildDomTree(ghost g: Cfg)
      requires WellFormed(g) && IDomsRight(g, idom)
      modifies this`domTree
      ensures TreeRight(g, domTree)
    {
      domTree := map[];
      var rest := idom.Keys;
      while rest != {}
        invariant rest <= idom.Keys
        invariant forall x: nat, c: nat :: c in SetAt(domTree, x) <==> IsChild(g, x, c) && c !in rest
        decreases rest
      {
        var block :| block in rest;
        rest := rest - {block};
        match idom[block] {
          case None =>
          case Some(id) => domTree := AddTo(domTree, id, block);
        }
      }
    }

    // ----- dominance frontiers, three ways -----

    /** By the definition. */
    method ComputeDFNaive(func: HirFunction)
      requires WellFormed(func.Snapshot().Graph()) && DomsRight(func.Snapshot().Graph(), dom)
      modifies this`df
      ensures FrontiersRight(func.Snapshot().Graph(), df)
    {
      hide IDF, WellFormed;
      var g := func.Snapshot().Graph();
      df := map[];
      var x: nat := 0;
      while x < g.Size()
        invariant x <= g.Size()
        invariant forall z: nat :: z < x ==> SetAt(df, z) == DF(g, z)
        invariant forall z: nat :: z >= x ==> SetAt(df, z) == {}
      {
        var y: nat := 0;
        while y < g.Size()
          invariant y <= g.Size()
          invariant forall z: nat :: z < x ==> SetAt(df, z) == DF(g, z)
          invariant forall z: nat :: z > x ==> SetAt(df, z) == {}
          invariant forall w: nat :: w in SetAt(df, x) <==> w < y && InDF(g, x, w)
        {
          if !(x != y && x in dom[y]) {
            var reaches := DominatesSomePred(g, x, y);
            if reaches { df := AddTo(df, x, y); }
          }
          y := y + 1;
        }
        assert SetAt(df, x) == DF(g, x);
        x := x + 1;
      }
    }

    method DominatesSomePred(g: Cfg, x: nat, y: nat) returns (r: bool)
      requires WellFormed(g) && DomsRight(g, dom) && x < g.Size() && y < g.Size()
      ensures r <==> exists p: nat :: g.Edge(p, y) && Dom(g, x, p)
    {
      var preds := g.preds[y];
      var k: nat := 0;
      while k < |preds|
        invariant k <= |preds|
        invariant forall j :: 0 <= j < k ==> !Dom(g, x, preds[j])
      {
        assert preds[k] in g.preds[y];
        if x in dom[preds[k]] {
          assert g.Edge(preds[k], y);
          return true;
        }
        k := k + 1;
      }
      return false;
    }

    /** Children before parents. */
    method Dfs(ghost g: Cfg, block: nat, sofar: seq<nat>) returns (postorder: seq<nat>)
      requires WellFormed(g) && TreeRight(g, domTree) && block < g.Size()
      requires ChildrenFirst(g, sofar)
      ensures sofar <= postorder && ChildrenFirst(g, postorder)
      ensures forall b: nat :: b in postorder <==> b in sofar || b in Below(g, block)
      decreases |Below(g, block)|
    {
      postorder := sofar;
      var rest := SetAt(domTree, block);
      while rest != {}
        invariant rest <= SetAt(domTree, block)
        invariant sofar <= postorder && ChildrenFirst(g, postorder)
        invariant forall b: nat :: b in postorder <==> b in sofar || BelowSome(g, SetAt(domTree, block) - rest, b)
        decreases rest
      {
        var child :| child in rest;
        ChildBelow(g, block, child);
        ghost var before := postorder;
        postorder := Dfs(g, child, postorder);
        BelowSomeMore(g, SetAt(domTree, block) - rest, child);
        assert SetAt(domTree, block) - (rest - {child}) == SetAt(domTree, block) - rest + {child};
        rest := rest - {child};
      }
      assert SetAt(domTree, block) - {} == SetAt(domTree, block);
      forall b: nat ensures b in Below(g, block) <==> b == block || BelowSome(g, SetAt(domTree, block), b) {
        BelowSplits(g, block, b);
      }
      forall c: nat | IsChild(g, block, c) ensures c in postorder {
        DomRefl(g, c);
        assert c in SetAt(domTree, block) && c in Below(g, c);
      }
      ChildrenFirstAppend(g, postorder, block);
      postorder := postorder + [block];
    }

    /** Bottom-up over the dominator tree. */
    method ComputeDF(func: HirFunction)
      requires var g := func.Snapshot().Graph(); WellFormed(g) && IDomsRight(g, idom) && TreeRight(g, domTree)
      modifies this`df
      ensures FrontiersRight(func.Snapshot().Graph(), df)
    {
      var g := func.Snapshot().Graph();
      df := map[];
      var postorder := Dfs(g, g.entry, []);
      forall b: nat | b < g.Size() ensures b in postorder { EntryDom(g, b); }
      var k: nat := 0;
      while k < |postorder|
        invariant k <= |postorder|
        invariant forall j :: 0 <= j < k ==> SetAt(df, postorder[j]) == DF(g, postorder[j])
      {
        var block := postorder[k];
        assert block in postorder;
        if block == g.entry {
          df := df[block := {}];
          EntryFrontierEmpty(g);
        } else {
          var local := LocalPart(g, block);
          var up := UpPart(g, block, postorder, k);
          df := df[block := local + up];
          forall y: nat | y < g.Size() && InDF(g, block, y) ensures y in local + up { FrontierSource(g, block, y); }
        }
        assert SetAt(df, block) == DF(g, block);
        k := k + 1;
      }
      forall x: nat | x < g.Size() ensures SetAt(df, x) == DF(g, x) { assert x in postorder; }
    }

    method LocalPart(g: Cfg, block: nat) returns (s: set<nat>)
      requires WellFormed(g) && IDomsRight(g, idom) && block < g.Size() && block != g.entry
      ensures forall y: nat :: y in s <==> g.Edge(block, y) && y != g.entry && IDom(g, y) != block
      ensures s <= DF(g, block)
    {
      s := {};
      var succs := g.succs[block];
      var i: nat := 0;
      while i < |succs|
        invariant i <= |succs|
        invariant forall y: nat :: y in s
                    <==> y in succs[..i] && g.Edge(block, y) && y != g.entry && IDom(g, y) != block
      {
        var succ := succs[i];
        assert succ in g.succs[block];
        LocalFrontier(g, block, succ);
        if idom[succ] != Some(block) { s := s + {succ}; }
        i := i + 1;
      }
      forall y: nat ensures y in succs <==> g.Edge(block, y) {}
      forall y: nat | g.Edge(block, y) ensures y != g.entry && (InDF(g, block, y) <==> IDom(g, y) != block) {
        LocalFrontier(g, block, y);
      }
    }

    method UpPart(g: Cfg, block: nat, ghost postorder: seq<nat>, ghost k: nat) returns (s: set<nat>)
      requires WellFormed(g) && IDomsRight(g, idom) && TreeRight(g, domTree) && block < g.Size()
      requires k < |postorder| && postorder[k] == block && ChildrenFirst(g, postorder)
      requires forall j :: 0 <= j < k ==> SetAt(df, postorder[j]) == DF(g, postorder[j])
      ensures forall y: nat :: y in s <==> PassedUp(g, block, SetAt(domTree, block), y)
      ensures s <= DF(g, block)
    {
      s := {};
      var children := SetAt(domTree, block);
      var rest := children;
      while rest != {}
        invariant rest <= children
        invariant forall y: nat :: y in s <==> PassedUp(g, block, children - rest, y)
        decreases rest
      {
        var child :| child in rest;
        rest := rest - {child};
        assert IsChild(g, block, child);
        assert SetAt(df, child) == DF(g, child) by { assert child in postorder[..k]; }
        var part := NotIDom(g, SetAt(df, child), block);
        s := s + part;
      }
      assert children - {} == children;
      forall y: nat | PassedUp(g, block, children, y) ensures y in DF(g, block) {
        var z: nat :| z in children && InDF(g, z, y);
        UpFrontier(g, block, z, y);
      }
    }

    method NotIDom(g: Cfg, ys: set<nat>, block: nat) returns (s: set<nat>)
      requires WellFormed(g) && IDomsRight(g, idom) && ys <= g.Blocks()
      ensures forall y: nat :: y in s <==> y in ys && IDomDiffers(g, y, block)
    {
      s := {};
      var rest := ys;
      while rest != {}
        invariant rest <= ys
        invariant forall y: nat :: y in s <==> y in ys - rest && IDomDiffers(g, y, block)
        decreases rest
      {
        var y :| y in rest;
        rest := rest - {y};
        if idom[y] != Some(block) { s := s + {y}; }
      }
    }

    /** Climbing from each predecessor to the immediate dominator. */
    method ComputeDFRunner(func: HirFunction)
      requires var g := func.Snapshot().Graph(); WellFormed(g) && IDomsRight(g, idom)
      modifies this`df
      ensures FrontiersRight(func.Snapshot().Graph(), df)
    {
      var g := func.Snapshot().Graph();
      df := map[];
      var block: nat := 0;
      while block < g.Size()
        invariant block <= g.Size()
        invariant forall x: nat, y: nat :: y in SetAt(df, x) ==> y < g.Size() && InDF(g, x, y)
        invariant forall x: nat, y: nat :: y < block && InDF(g, x, y) ==> y in SetAt(df, x)
      {
        if |g.preds[block]| >= 2 {
          RunUp(g, block);
        } else {
          forall x: nat ensures !InDF(g, x, block) {
            if |g.preds[block]| == 1 {
              var p := g.preds[block][0];
              assert p in g.preds[block];
              SinglePredNoFrontier(g, p, block);
            }
          }
        }
        block := block + 1;
      }
    }

    method RunUp(g: Cfg, block: nat)
      requires WellFormed(g) && IDomsRight(g, idom) && block < g.Size() && g.preds[block] != []
      requires forall x: nat, y: nat :: y in SetAt(df, x) ==> y < g.Size() && InDF(g, x, y)
      modifies this`df
      ensures forall x: nat, y: nat :: y in SetAt(df, x) ==> y < g.Size() && InDF(g, x, y)
      ensures forall x: nat, y: nat :: y in SetAt(old(df), x) ==> y in SetAt(df, x)
      ensures forall x: nat :: InDF(g, x, block) ==> block in SetAt(df, x)
    {
      var preds := g.preds[block];
      var i: nat := 0;
      while i < |preds|
        invariant i <= |preds|
        invariant forall x: nat, y: nat :: y in SetAt(df, x) ==> y < g.Size() && InDF(g, x, y)
        invariant forall x: nat, y: nat :: y in SetAt(old(df), x) ==> y in SetAt(df, x)
        invariant forall x: nat, j :: 0 <= j < i && Dom(g, x, preds[j]) && !SDom(g, x, block) ==> block in SetAt(df, x)
      {
        assert preds[i] in g.preds[block];
        Climb(g, block, preds[i]);
        i := i + 1;
      }
    }

    method Climb(g: Cfg, block: nat, pred: nat)
      requires WellFormed(g) && IDomsRight(g, idom) && g.Edge(pred, block)
      requires forall x: nat, y: nat :: y in SetAt(df, x) ==> y < g.Size() && InDF(g, x, y)
      modifies this`df
      ensures forall x: nat, y: nat :: y in SetAt(df, x) ==> y < g.Size() && InDF(g, x, y)
      ensures forall x: nat, y: nat :: y in SetAt(old(df), x) ==> y in SetAt(df, x)
      ensures forall x: nat :: Dom(g, x, pred) && !SDom(g, x, block) ==> block in SetAt(df, x)
    {
      var runner: nat := pred;
      DomRefl(g, pred);
      SDomPred(g, IDom(g, block), pred, block);
      while Some(runner) != idom[block]
        invariant OnClimb(g, runner, pred, block)
        invariant forall x: nat, y: nat :: y in SetAt(df, x) ==> y < g.Size() && InDF(g, x, y)
        invariant forall x: nat, y: nat :: y in SetAt(old(df), x) ==> y in SetAt(df, x)
        invariant forall x: nat :: Dom(g, x, pred) && !SDom(g, x, block) ==> block in SetAt(df, x) || Dom(g, x, runner)
        decreases |Doms(g, runner)|
      {
        ClimbStep(g, runner, pred, block);
        df := AddTo(df, runner, block);
        runner := idom[runner].value;
      }
      ClimbEnds(g, runner, block);
    }

    // ----- phi placement -----

    method CollectDefs(func: HirFunction)
      modifies this`defBlocks
      ensures DefsRight(func.Snapshot(), defBlocks)
    {
      ghost var f := func.Snapshot();
      defBlocks := map[];
      var b: nat := 0;
      while b < |func.blocks|
        invariant b <= |func.blocks|
        invariant forall v: Var :: SetAt(defBlocks, v) == DefsBefore(f, b, v)
      {
        var defs := func.blocks[b].defs;
        var k: nat := 0;
        while k < |defs|
          invariant k <= |defs|
          invariant forall v: Var :: SetAt(defBlocks, v) == DefsBefore(f, b, v) + (if v in defs[..k] then {b} else {})
        {
          defBlocks := AddTo(defBlocks, defs[k], b);
          k := k + 1;
        }
        assert defs[..k] == defs;
        forall v: Var ensures SetAt(defBlocks, v) == DefsBefore(f, b + 1, v) {
          assert DefsBefore(f, b + 1, v) == DefsBefore(f, b, v) + (if v in defs then {b} else {});
        }
        b := b + 1;
      }
      forall v: Var ensures SetAt(defBlocks, v) == DefBlocks(f, v) {
        assert DefsBefore(f, b, v) == DefBlocks(f, v);
      }
    }

    method Seed(defs: set<nat>) returns (worklist: seq<nat>)
      ensures forall x: nat :: x in worklist <==> x in defs
    {
      worklist := [];
      var rest := defs;
      while rest != {}
        invariant rest <= defs
        invariant forall x: nat :: x in worklist <==> x in defs - rest
        decreases rest
      {
        var d :| d in rest;
        rest := rest - {d};
        worklist := worklist + [d];
      }
    }

    /** Phis for the whole frontier of X; blocks that get one are queued. */
    method Expand(X: nat, oldPhis: set<nat>, oldWork: seq<nat>) returns (hasPhi: set<nat>, worklist: seq<nat>)
      ensures hasPhi == oldPhis + SetAt(df, X)
      ensures forall x: nat :: x in worklist <==> x in oldWork || x in hasPhi - oldPhis
      ensures hasPhi == oldPhis ==> worklist == oldWork
    {
      hasPhi, worklist := oldPhis, oldWork;
      var ys := SetAt(df, X);
      while ys != {}
        invariant ys <= SetAt(df, X) && hasPhi == oldPhis + (SetAt(df, X) - ys)
        invariant forall x: nat :: x in worklist <==> x in oldWork || x in hasPhi - oldPhis
        invariant hasPhi == oldPhis ==> worklist == oldWork
        decreases ys
      {
        var Y :| Y in ys;
        ys := ys - {Y};
        if Y !in hasPhi {
          hasPhi := hasPhi + {Y};
          worklist := worklist + [Y];
        }
      }
    }

    /** The candidates for one variable: the least set closed under frontiers. */
    method IteratedFrontier(ghost g: Cfg, defs: set<nat>) returns (hasPhi: set<nat>)
      requires WellFormed(g) && FrontiersRight(g, df) && defs <= g.Blocks()
      ensures hasPhi == IDF(g, defs)
    {
      hasPhi := {};
      var worklist := Seed(defs);
      IDFClosed(g, defs);
      while worklist != []
        invariant WorkRight(g, defs, hasPhi, worklist)
        decreases g.Blocks() - hasPhi, |worklist|
      {
        var last := |worklist| - 1;
        var X := worklist[last];
        assert SetAt(df, X) == DF(g, X);
        var more, work := Expand(X, hasPhi, worklist[..last]);
        ExpandKeeps(g, defs, hasPhi, worklist, X, more, work);
        hasPhi, worklist := more, work;
      }
      IDFLeast(g, defs, hasPhi);
    }

    method ComputePhiPos(func: HirFunction)
      requires var f := func.Snapshot();
               WellFormed(f.Graph()) && FrontiersRight(f.Graph(), df) && DefsRight(f, defBlocks)
      modifies this`phiBlocks
      ensures CandidatesRight(func.Snapshot(), phiBlocks)
    {
      ghost var f := func.Snapshot();
      phiBlocks := map[];
      var rest := defBlocks.Keys;
      while rest != {}
        invariant rest <= defBlocks.Keys
        invariant forall b :: b in phiBlocks ==> b < |f.blocks|
        invariant forall b: nat, v: Var :: v in SetAt(phiBlocks, b)
                    <==> v in defBlocks && v !in rest && b in IDF(f.Graph(), DefBlocks(f, v))
        decreases rest
      {
        var v :| v in rest;
        rest := rest - {v};
        assert SetAt(defBlocks, v) == DefBlocks(f, v);
        var hasPhi := IteratedFrontier(f.Graph(), defBlocks[v]);
        MarkPhis(v, hasPhi);
      }
      forall b: nat, v: Var | v !in defBlocks ensures b !in IDF(f.Graph(), DefBlocks(f, v)) {
        assert SetAt(defBlocks, v) == DefBlocks(f, v);
        IDFLeast(f.Graph(), {}, {});
      }
    }

    method MarkPhis(v: Var, blocks: set<nat>)
      modifies this`phiBlocks
      ensures forall b: nat, u: Var :: u in SetAt(phiBlocks, b)
                <==> u in SetAt(old(phiBlocks), b) || (u == v && b in blocks)
      ensures forall b :: b in phiBlocks ==> b in old(phiBlocks) || b in blocks
    {
      var rest := blocks;
      while rest != {}
        invariant rest <= blocks
        invariant forall b :: b in phiBlocks ==> b in old(phiBlocks) || b in blocks
        invariant forall b: nat, u: Var :: u in SetAt(phiBlocks, b)
                    <==> u in SetAt(old(phiBlocks), b) || (u == v && b in blocks - rest)
        decreases rest
      {
        var b :| b in rest;
        rest := rest - {b};
        phiBlocks := AddTo(phiBlocks, b, v);
      }
    }

    // ----- phi insertion -----

    /** Whether some definition dominates each predecessor. */
    method EveryPredecessorHasDefinition(ghost g: Cfg, defs: set<nat>, ghost block: nat, preds: seq<nat>)
      returns (all: bool)
      requires WellFormed(g) && DomsRight(g, dom) && block < g.Size() && preds == g.preds[block]
      ensures all <==> EveryPredDefined(g, defs, block)
    {
      var k: nat := 0;
      while k < |preds|
        invariant k <= |preds|
        invariant forall j :: 0 <= j < k ==> exists d :: d in defs && Dom(g, d, preds[j])
      {
        var pred := preds[k];
        assert pred in g.preds[block] && g.Edge(pred, block);
        var hasDefinition := false;
        var rest := defs;
        while rest != {} && !hasDefinition
          invariant rest <= defs
          invariant hasDefinition ==> exists d :: d in defs && Dom(g, d, pred)
          invariant !hasDefinition ==> forall d :: d in defs - rest ==> !Dom(g, d, pred)
          decreases rest
        {
          var d :| d in rest;
          rest := rest - {d};
          if d in dom[pred] {
            hasDefinition := true;
          } else if Dom(g, d, pred) {
            DomInRange(g, d, pred);
          }
        }
        if !hasDefinition { return false; }
        k := k + 1;
      }
      return true;
    }

    /** The pruning test for one candidate. */
    method KeepCandidate(ghost f: Func, block: nat, preds: seq<nat>, v: Var) returns (keep: bool)
      requires WellFormed(f.Graph()) && DomsRight(f.Graph(), dom) && DefsRight(f, defBlocks)
      requires CandidatesRight(f, phiBlocks)
      requires block < |f.blocks| && preds == f.blocks[block].preds && v in SetAt(phiBlocks, block)
      ensures keep <==> NeedsPhi(f, block, v)
    {
      assert SetAt(defBlocks, v) == DefBlocks(f, v);
      if v !in defBlocks {
        IDFLeast(f.Graph(), {}, {});
        return false;
      }
      keep := EveryPredecessorHasDefinition(f.Graph(), defBlocks[v], block, preds);
    }

    method InsertOne(func: HirFunction, block: nat, pos: nat, v: Var, ghost f: Func, ghost seen: set<Var>)
      requires block < |func.blocks| == |f.blocks| && pos <= |func.blocks[block].code|
      requires f.lastValueId <= func.lastValueId && SingleProducers(func.Snapshot()) && IdsBelow(func.Snapshot())
      requires PartExtended(f, func.Snapshot(), block, pos, seen) && v !in seen && NeedsPhi(f, block, v)
      modifies func`blocks, func`lastValueId
      ensures func.lastValueId == old(func.lastValueId) + 1
      ensures |func.blocks| == |f.blocks| && SingleProducers(func.Snapshot()) && IdsBelow(func.Snapshot())
      ensures forall c :: 0 <= c < |f.blocks| && c != block ==> func.blocks[c] == old(func.blocks)[c]
      ensures pos + 1 <= |func.blocks[block].code| && PartExtended(f, func.Snapshot(), block, pos + 1, seen + {v})
    {
      var phi := Phi(func.lastValueId, Placeholders(func.blocks[block].preds, v), None, Some(v));
      InsertKeepsSingle(func.Snapshot(), block, pos, phi);
      PartMore(f, func.Snapshot(), block, pos, seen, v, phi);
      func.lastValueId := func.lastValueId + 1;
      func.blocks := func.blocks[block := func.blocks[block].(code := InsertAt(func.blocks[block].code, pos, phi))];
    }

    method ConsiderOne(func: HirFunction, block: nat, pos: nat, preds: seq<nat>, v: Var, ghost f: Func,
                       ghost seen: set<Var>)
      returns (next: nat)
      requires WellFormed(f.Graph()) && DomsRight(f.Graph(), dom) && DefsRight(f, defBlocks)
      requires CandidatesRight(f, phiBlocks)
      requires block < |func.blocks| == |f.blocks| && pos <= |func.blocks[block].code| && preds == f.blocks[block].preds
      requires f.lastValueId <= func.lastValueId && SingleProducers(func.Snapshot()) && IdsBelow(func.Snapshot())
      requires PartExtended(f, func.Snapshot(), block, pos, seen) && v !in seen && v in SetAt(phiBlocks, block)
      modifies func`blocks, func`lastValueId
      ensures old(func.lastValueId) <= func.lastValueId
      ensures |func.blocks| == |f.blocks| && SingleProducers(func.Snapshot()) && IdsBelow(func.Snapshot())
      ensures forall c :: 0 <= c < |f.blocks| && c != block ==> func.blocks[c] == old(func.blocks)[c]
      ensures next <= |func.blocks[block].code| && PartExtended(f, func.Snapshot(), block, next, seen + {v})
    {
      var keep := KeepCandidate(f, block, preds, v);
      if keep {
        InsertOne(func, block, pos, v, f, seen);
        next := pos + 1;
      } else {
        PartSkip(f, func.Snapshot(), block, pos, seen, v);
        next := pos;
      }
    }

    method InsertInBlock(func: HirFunction, block: nat, ghost f: Func)
      requires WellFormed(f.Graph()) && DomsRight(f.Graph(), dom) && DefsRight(f, defBlocks)
      requires CandidatesRight(f, phiBlocks)
      requires block in phiBlocks && |func.blocks| == |f.blocks| && func.blocks[block] == f.blocks[block]
      requires f.lastValueId <= func.lastValueId && SingleProducers(func.Snapshot()) && IdsBelow(func.Snapshot())
      modifies func`blocks, func`lastValueId
      ensures old(func.lastValueId) <= func.lastValueId
      ensures |func.blocks| == |f.blocks| && SingleProducers(func.Snapshot()) && IdsBelow(func.Snapshot())
      ensures forall c :: 0 <= c < |f.blocks| && c != block ==> func.blocks[c] == old(func.blocks)[c]
      ensures BlockExtended(f, func.Snapshot(), block)
    {
      hide PartExtended, BlockExtended, SingleProducers, IdsBelow;
      var vars := phiBlocks[block];
      var preds := func.blocks[block].preds;
      var rest := vars;
      var pos: nat := 0;
      ghost var seen: set<Var> := {};
      PartNone(f, func.Snapshot(), block);
      while rest != {}
        invariant rest <= vars && seen == vars - rest
        invariant old(func.lastValueId) <= func.lastValueId
        invariant |func.blocks| == |f.blocks| && SingleProducers(func.Snapshot()) && IdsBelow(func.Snapshot())
        invariant forall c :: 0 <= c < |f.blocks| && c != block ==> func.blocks[c] == old(func.blocks)[c]
        invariant pos <= |func.blocks[block].code| && PartExtended(f, func.Snapshot(), block, pos, seen)
        decreases rest
      {
        var v :| v in rest;
        pos := ConsiderOne(func, block, pos, preds, v, f, seen);
        rest := rest - {v};
        seen := seen + {v};
      }
      forall v | NeedsPhi(f, block, v) ensures v in vars { assert v in SetAt(phiBlocks, block); }
      PartDone(f, func.Snapshot(), block, pos, seen);
    }

    /** One phi per surviving candidate, each with a value of its own, in front of the block's code. */
    method InsertPhis(func: HirFunction)
      requires var f := func.Snapshot();
               Shaped(f) && DomsRight(f.Graph(), dom) && DefsRight(f, defBlocks) && CandidatesRight(f, phiBlocks)
      modifies func`blocks, func`lastValueId
      ensures PhisInserted(old(func.Snapshot()), func.Snapshot())
    {
      ghost var f := func.Snapshot();
      ShapedIds(f);
      var rest := phiBlocks.Keys;
      forall b: nat | b < |f.blocks| && b !in rest ensures BlockExtended(f, f, b) {
        assert SetAt(phiBlocks, b) == {};
      }
      while rest != {}
        invariant rest <= phiBlocks.Keys
        invariant |func.blocks| == |f.blocks| && f.lastValueId <= func.lastValueId
        invariant SingleProducers(func.Snapshot()) && IdsBelow(func.Snapshot())
        invariant forall b: nat :: b < |f.blocks| && b in rest ==> func.blocks[b] == f.blocks[b]
        invariant forall b: nat :: b < |f.blocks| && b !in rest ==> BlockExtended(f, func.Snapshot(), b)
        decreases rest
      {
        var block :| block in rest;
        rest := rest - {block};
        ghost var before := func.Snapshot();
        InsertInBlock(func, block, f);
        forall b: nat | b < |f.blocks| && b !in rest ensures BlockExtended(f, func.Snapshot(), b) {
          if b != block { ExtendedStays(f, before, func.Snapshot(), b); }
        }
      }
    }

    // ----- renaming -----

    method LookupVar(v: Var) returns (r: Option<Val>)
      ensures r == if v in Tops(varStack) then Some(Tops(varStack)[v]) else None
    {
      if v !in varStack || varStack[v] == [] {
        return None;
      }
      return Some(varStack[v][|varStack[v]| - 1]);
    }

    /** Not ok when a variable has no reaching definition. */
    method ResolveOperand(o: Operand) returns (ok: bool, r: Operand)
      ensures ok <==> (o.VarRef? ==> o.sym in Tops(varStack))
      ensures ok ==> r == RenameOperand(Tops(varStack), o)
    {
      match o {
        case Value(_) => return true, o;
        case VarRef(v) =>
          var found := LookupVar(v);
          match found {
            case None => return false, o;
            case Some(d) => return true, Value(d);
          }
      }
    }

    method ResolveOperands(os: seq<Operand>) returns (ok: bool, r: seq<Operand>)
      ensures ok <==> OnStacks(Tops(varStack), os)
      ensures ok ==> r == RenameOperands(Tops(varStack), os)
    {
      r := [];
      var k: nat := 0;
      while k < |os|
        invariant k <= |os| && |r| == k
        invariant forall j :: 0 <= j < k ==> (os[j].VarRef? ==> os[j].sym in Tops(varStack))
        invariant forall j :: 0 <= j < k ==> r[j] == RenameOperand(Tops(varStack), os[j])
      {
        var found, o := ResolveOperand(os[k]);
        if !found {
          assert os[k] in os;
          return false, r;
        }
        r := r + [o];
        k := k + 1;
      }
      return true, r;
    }

    method ResolveInstr(i: Instr) returns (ok: bool, r: Instr)
      requires !i.Phi?
      ensures ok <==> OnStacks(Tops(varStack), Operands(i))
      ensures ok ==> r == RenameInstr(Tops(varStack), i)
    {
      r := i;
      match i {
        case Compute(op, d, args, s) =>
          var os;
          ok, os := ResolveOperands(args);
          r := Compute(op, d, os, s);
        case Print(a) =>
          var o;
          ok, o := ResolveOperand(a);
          r := Print(o);
        case Bind(a, v) =>
          var o;
          ok, o := ResolveOperand(a);
          r := Bind(o, v);
      }
    }

    method ResolveTerm(t: Term) returns (ok: bool, r: Term)
      ensures ok <==> OnStacks(Tops(varStack), TermOperands(t))
      ensures ok ==> r == RenameTerm(Tops(varStack), t)
    {
      ok, r := true, t;
      match t {
        case Branch(c, x, y) =>
          var o;
          ok, o := ResolveOperand(c);
          r := Branch(o, x, y);
        case Return(Some(a)) =>
          var o;
          ok, o := ResolveOperand(a);
          r := Return(Some(o));
        case _ =>
      }
    }

    /** What instruction i (already renamed, if it is not a phi) makes current goes on its variable's stack. */
    method PushDefinition(i: Instr, pushed: seq<Var>, ghost before: Stacks, ghost original: Instr)
      returns (now: seq<Var>)
      requires PushedOver(varStack, before, pushed)
      requires if i.Phi? then original.Phi? && original == i.(phis := original.phis)
               else i == RenameInstr(Tops(varStack), original)
      requires OnStacks(Tops(varStack), Operands(original))
      modifies this`varStack
      ensures PushedOver(varStack, before, now)
      ensures Tops(varStack) == Push(Tops(old(varStack)), original)
    {
      now := pushed;
      match i {
        case Phi(d, _, s, p) =>
          if p.Some? {
            now := PushValue(p.value, d, pushed, before);
          } else if s.Some? {
            now := PushValue(s.value, d, pushed, before);
          }
        case Bind(o, v) =>
          assert original.source in Operands(original);
          now := PushValue(v, o.id, pushed, before);
        case Compute(_, d, _, s) =>
          if s.Some? { now := PushValue(s.value, d, pushed, before); }
        case Print(_) =>
      }
    }

    method PushValue(v: Var, d: Val, pushed: seq<Var>, ghost before: Stacks) returns (now: seq<Var>)
      requires PushedOver(varStack, before, pushed)
      modifies this`varStack
      ensures PushedOver(varStack, before, now)
      ensures Tops(varStack) == Tops(old(varStack))[v := d]
    {
      PushedMore(varStack, before, pushed, v, d);
      TopsPush(varStack, v, d);
      varStack := PushOn(varStack, v, d);
      now := pushed + [v];
    }

    method PopAll(pushed: seq<Var>, ghost before: Stacks)
      requires PushedOver(varStack, before, pushed)
      modifies this`varStack
      ensures SameStacks(varStack, before)
    {
      var n: nat := |pushed|;
      assert pushed[..n] == pushed;
      while n > 0
        invariant n <= |pushed| && PushedOver(varStack, before, pushed[..n])
      {
        n := n - 1;
        assert pushed[..n + 1] == pushed[..n] + [pushed[n]];
        PushedPop(varStack, before, pushed[..n], pushed[n]);
        varStack := varStack[pushed[n] := varStack[pushed[n]][..|varStack[pushed[n]]| - 1]];
      }
      assert pushed[..0] == [];
      PushedNone(varStack, before);
    }

    /** The leading phis make their results current. */
    method PushPhis(func: HirFunction, block: nat, ghost f: Func, ghost done: set<nat>) returns (pushed: seq<Var>)
      requires RenameReady(f) && block < |f.blocks| && func.Snapshot() == PartialFunc(f, done, done)
      requires Tops(varStack) == EnvIn(f, block)
      modifies this`varStack
      ensures PushedOver(varStack, old(varStack), pushed)
      ensures Tops(varStack) == EnvAt(f, block, PhiCount(f.blocks[block].code, |f.blocks[block].code|))
    {
      pushed := [];
      PushedNone(varStack, varStack);
      var code := func.blocks[block].code;
      assert BlockShaped(f, block);
      PhiPrefix(f.blocks[block].code, |f.blocks[block].code|);
      var i: nat := 0;
      while i < |code| && code[i].Phi?
        invariant i <= PhiCount(f.blocks[block].code, |f.blocks[block].code|)
        invariant PushedOver(varStack, old(varStack), pushed)
        invariant Tops(varStack) == EnvAt(f, block, i)
      {
        assert code[i] == PartialInstr(f, done, done, block, i);
        pushed := PushDefinition(code[i], pushed, old(varStack), f.blocks[block].code[i]);
        i := i + 1;
      }
    }

    /** Instruction i of `block`, unless it is a phi: operands first, then its definition. */
    method RenameAt(func: HirFunction, block: nat, i: nat, before: seq<Var>, ghost f: Func, ghost done: set<nat>,
                    ghost base: Stacks)
      returns (ok: bool, pushed: seq<Var>)
      requires WellFormed(f.Graph()) && block < |f.blocks| == |func.blocks| && block !in done
      requires i < |f.blocks[block].code|
      requires func.blocks[block] == MidBody(f, done, block, i)
      requires PushedOver(varStack, base, before)
      requires !f.blocks[block].code[i].Phi? ==> Tops(varStack) == EnvAt(f, block, i)
      modifies func`blocks, this`varStack
      ensures ok <==> LookupOkAt(f, block, i)
      ensures ok ==> func.blocks == old(func.blocks)[block := MidBody(f, done, block, i + 1)]
      ensures ok ==> PushedOver(varStack, base, pushed)
      ensures ok ==> if f.blocks[block].code[i].Phi? then varStack == old(varStack)
                     else Tops(varStack) == EnvAt(f, block, i + 1)
    {
      BodyAdvances(f, done, block, i);
      var instr := func.blocks[block].code[i];
      ok, pushed := true, before;
      if !instr.Phi? {
        var renamed;
        ok, renamed := ResolveInstr(instr);
        if !ok { return; }
        pushed := PushDefinition(renamed, pushed, base, f.blocks[block].code[i]);
        var blk := func.blocks[block];
        func.blocks := func.blocks[block := blk.(code := blk.code[i := renamed])];
      } else {
        assert PartialInstr(f, done + {block}, done, block, i) == instr;
        assert func.blocks[block].code[i := instr] == func.blocks[block].code;
      }
    }

    /** The instructions are renamed in order, each seeing the definitions before it. */
    method RenameBody(func: HirFunction, block: nat, before: seq<Var>, ghost f: Func, ghost done: set<nat>,
                      ghost base: Stacks)
      returns (ok: bool, pushed: seq<Var>)
      requires WellFormed(f.Graph()) && block < |f.blocks| && block !in done && PhisFirst(f.blocks[block].code)
      requires func.blocks == PartialFunc(f, done, done).blocks
      requires PushedOver(varStack, base, before)
      requires Tops(varStack) == EnvAt(f, block, PhiCount(f.blocks[block].code, |f.blocks[block].code|))
      modifies func`blocks, this`varStack
      ensures ok <==> BodyLookupsOk(f, block)
      ensures ok ==> PushedOver(varStack, base, pushed) && Tops(varStack) == EnvOut(f, block)
      ensures ok ==>
        func.blocks == PartialFunc(f, done, done).blocks[block := MidBody(f, done, block, |f.blocks[block].code|)]
    {
      ok, pushed := true, before;
      ghost var start := PartialFunc(f, done, done).blocks;
      ghost var code := f.blocks[block].code;
      ghost var k := PhiCount(code, |code|);
      PhiPrefix(code, |code|);
      BodyStarts(f, done, block);
      assert func.blocks == start[block := MidBody(f, done, block, 0)];
      var i: nat := 0;
      while i < |func.blocks[block].code|
        invariant i <= |code| && |func.blocks| == |f.blocks|
        invariant func.blocks == start[block := MidBody(f, done, block, i)]
        invariant PushedOver(varStack, base, pushed)
        invariant Tops(varStack) == EnvAt(f, block, if i < k then k else i)
        invariant forall j :: 0 <= j < i ==> LookupOkAt(f, block, j)
      {
        assert code[i].Phi? <==> i < k;
        ok, pushed := RenameAt(func, block, i, pushed, f, done, base);
        if !ok { return; }
        i := i + 1;
      }
      ok := true;
    }

    /** Sets the entry for `block` in one phi of a successor. */
    method FillIncoming(i: Instr, block: nat) returns (ok: bool, r: Instr)
      requires OneEntry(i, block)
      ensures ok <==> EntryOnStacks(Tops(varStack), i.phis, block)
      ensures ok ==> r == i.(phis := FillPhis(Tops(varStack), i.phis, block))
    {
      var phis := i.phis;
      var k: nat := 0;
      if i.phiVar.Some? {
        var found := LookupVar(i.phiVar.value);
        if found.None? {
          return false, i;
        }
        while phis[k].pred != block
          invariant k < |phis| && forall j :: 0 <= j < k ==> phis[j].pred != block
          invariant exists j :: k <= j < |phis| && phis[j].pred == block
          decreases |phis| - k
        {
          k := k + 1;
        }
        phis := phis[k := phis[k].(value := Value(found.value))];
        assert phis == FillPhis(Tops(varStack), i.phis, block);
      } else {
        while k < |phis|
          invariant k <= |phis| == |i.phis|
          invariant forall j :: 0 <= j < k && i.phis[j].pred == block && i.phis[j].value.VarRef?
                      ==> i.phis[j].value.sym in Tops(varStack)
          invariant forall j :: 0 <= j < |phis|
                      ==> phis[j] == if j < k then FillPhis(Tops(varStack), i.phis, block)[j] else i.phis[j]
        {
          if phis[k].pred == block {
            var found, o := ResolveOperand(phis[k].value);
            if !found { return false, i; }
            phis := phis[k := phis[k].(value := o)];
          }
          k := k + 1;
        }
        assert phis == FillPhis(Tops(varStack), i.phis, block);
      }
      return true, i.(phis := phis);
    }

    method FillSuccessor(func: HirFunction, block: nat, succ: nat, ghost f: Func, ghost done: set<nat>)
      returns (ok: bool)
      requires RenameReady(f) && block < |f.blocks| == |func.blocks| && block !in done && succ in f.blocks[block].succs
      requires succ < |f.blocks| && func.blocks[succ] == PartialBlock(f, done + {block}, done, succ)
      requires Tops(varStack) == EnvOut(f, block)
      modifies func`blocks
      ensures |func.blocks| == |f.blocks|
      ensures ok <==> PhiLookupsOk(f, block, succ)
      ensures ok ==> func.blocks == old(func.blocks)[succ := PartialBlock(f, done + {block}, done + {block}, succ)]
    {
      ghost var bodies := done + {block};
      assert BlockShaped(f, succ);
      FillStarts(f, bodies, done, block, succ);
      assert func.blocks == old(func.blocks)[succ := MidFill(f, bodies, done, block, succ, 0)];
      var i: nat := 0;
      while i < |func.blocks[succ].code| && func.blocks[succ].code[i].Phi?
        invariant i <= |f.blocks[succ].code| && |func.blocks| == |f.blocks|
        invariant func.blocks == old(func.blocks)[succ := MidFill(f, bodies, done, block, succ, i)]
        invariant forall j :: 0 <= j < i && f.blocks[succ].code[j].Phi?
                    ==> EntryOnStacks(EnvOut(f, block), f.blocks[succ].code[j].phis, block)
      {
        FillAdvances(f, bodies, done, block, succ, i);
        var phi := func.blocks[succ].code[i];
        SuccessorEntry(f, bodies, done, block, succ, i);
        FillAddsPred(f, done, f.blocks[succ].code[i].phis, block);
        var filled, phi' := FillIncoming(phi, block);
        if !filled { return false; }
        assert phi' == PartialInstr(f, bodies, done + {block}, succ, i);
        var blk := func.blocks[succ];
        func.blocks := func.blocks[succ := blk.(code := blk.code[i := phi'])];
        i := i + 1;
      }
      if i < |f.blocks[succ].code| {
        assert func.blocks[succ].code[i] == PartialInstr(f, bodies, done, succ, i);
      }
      FillFinishes(f, bodies, done, block, succ, i);
      return true;
    }

    /** The entries for `block` in the phis of all its successors. */
    method FillSuccessors(func: HirFunction, block: nat, ghost f: Func, ghost done: set<nat>) returns (ok: bool)
      requires RenameReady(f) && block < |f.blocks| && block !in done
      requires func.Snapshot() == PartialFunc(f, done + {block}, done)
      requires Tops(varStack) == EnvOut(f, block)
      modifies func`blocks
      ensures ok <==> forall s :: s in f.blocks[block].succs ==> PhiLookupsOk(f, block, s)
      ensures ok ==> func.Snapshot() == PartialFunc(f, done + {block}, done + {block})
    {
      ghost var bodies := done + {block};
      assert BlockShaped(f, block);
      var succs := func.blocks[block].succs;
      var k: nat := 0;
      while k < |succs|
        invariant k <= |succs| && |func.blocks| == |f.blocks|
        invariant forall j :: 0 <= j < k ==> PhiLookupsOk(f, block, succs[j])
        invariant forall c: nat :: c < |f.blocks|
                    ==> func.blocks[c] == PartialBlock(f, bodies, if c in succs[..k] then done + {block} else done, c)
      {
        assert succs[k] in f.Graph().succs[block] && f.Graph().Edge(block, succs[k]);
        assert succs[k] !in succs[..k];
        ghost var before := func.blocks;
        var filled := FillSuccessor(func, block, succs[k], f, done);
        if !filled {
          assert succs[k] in succs;
          return false;
        }
        forall c: nat | c < |f.blocks|
          ensures func.blocks[c] == PartialBlock(f, bodies, if c in succs[..k + 1] then done + {block} else done, c)
        {
          assert c in succs[..k + 1] <==> c in succs[..k] || c == succs[k];
        }
        k := k + 1;
      }
      assert succs[..k] == succs;
      forall c: nat | c < |f.blocks| ensures func.blocks[c] == PartialBlock(f, bodies, done + {block}, c) {
        if c !in succs { NothingToFill(f, bodies, done, block, c); }
      }
      assert func.blocks == PartialFunc(f, bodies, done + {block}).blocks;
      return true;
    }

    /** Everything renaming does for one block before it goes down the tree. */
    method VisitBlock(func: HirFunction, block: nat, ghost f: Func, ghost done: set<nat>)
      returns (ok: bool, pushed: seq<Var>)
      requires RenameReady(f) && block < |f.blocks| && block !in done && func.Snapshot() == PartialFunc(f, done, done)
      requires Tops(varStack) == EnvIn(f, block)
      modifies func, this`varStack
      ensures ok <==> LookupsOk(f, block)
      ensures ok ==> PushedOver(varStack, old(varStack), pushed) && Tops(varStack) == EnvOut(f, block)
      ensures ok ==> func.Snapshot() == PartialFunc(f, done + {block}, done + {block})
    {
      assert BlockShaped(f, block);
      pushed := PushPhis(func, block, f, done);
      ok, pushed := RenameBody(func, block, pushed, f, done, old(varStack));
      if !ok { return; }
      var resolved, term := ResolveTerm(func.blocks[block].term);
      if !resolved { return false, pushed; }
      func.blocks := func.blocks[block := func.blocks[block].(term := term)];
      BodyFinishes(f, done, block, func.blocks);
      ok := FillSuccessors(func, block, f, done);
    }

    /** Visits the dominator tree below `block`; false when some lookup finds no reaching definition. */
    method Rename(func: HirFunction, block: nat, ghost f: Func, ghost done: set<nat>) returns (ok: bool)
      requires RenameReady(f) && TreeRight(f.Graph(), domTree) && block < |f.blocks|
      requires func.Snapshot() == PartialFunc(f, done, done) && done !! Below(f.Graph(), block)
      requires Tops(varStack) == EnvIn(f, block)
      modifies func, this`varStack
      ensures ok <==> forall c :: c in Below(f.Graph(), block) ==> LookupsOk(f, c)
      ensures ok ==> SameStacks(varStack, old(varStack))
      ensures ok ==> func.Snapshot() == PartialFunc(f, done + Below(f.Graph(), block), done + Below(f.Graph(), block))
      decreases |Below(f.Graph(), block)|, 2
    {
      DomRefl(f.Graph(), block);
      assert block in Below(f.Graph(), block);
      var pushed;
      ok, pushed := VisitBlock(func, block, f, done);
      if !ok { return; }
      ghost var stacks := varStack;
      ok := RenameChildren(func, block, f, done);
      if !ok { return; }
      PushedSame(stacks, varStack, old(varStack), pushed);
      PopAll(pushed, old(varStack));
    }

    method RenameChildren(func: HirFunction, block: nat, ghost f: Func, ghost done: set<nat>) returns (ok: bool)
      requires RenameReady(f) && TreeRight(f.Graph(), domTree) && block < |f.blocks|
      requires func.Snapshot() == PartialFunc(f, done + {block}, done + {block}) && done !! Below(f.Graph(), block)
      requires Tops(varStack) == EnvOut(f, block)
      modifies func, this`varStack
      ensures ok <==> forall c :: c in Below(f.Graph(), block) && c != block ==> LookupsOk(f, c)
      ensures ok ==> SameStacks(varStack, old(varStack))
      ensures ok ==> func.Snapshot() == PartialFunc(f, done + Below(f.Graph(), block), done + Below(f.Graph(), block))
      decreases |Below(f.Graph(), block)|, 1
    {
      ghost var g := f.Graph();
      ghost var reached, visited := {block}, {};
      var rest := SetAt(domTree, block);
      while rest != {}
        invariant Reached(g, block, visited, reached)
        invariant forall c: nat :: IsChild(g, block, c) <==> c in visited || c in rest
        invariant rest !! visited
        invariant forall c :: c in reached && c != block ==> c in Below(g, block) && LookupsOk(f, c)
        invariant func.Snapshot() == PartialFunc(f, done + reached, done + reached)
        invariant SameStacks(varStack, old(varStack))
        decreases rest
      {
        var child :| child in rest;
        TopsSame(varStack, old(varStack));
        ok := RenameChild(func, block, child, f, done, visited, reached);
        if !ok { return; }
        reached, visited := reached + Below(g, child), visited + {child};
        rest := rest - {child};
      }
      ReachedAll(g, block, visited, reached);
      ok := true;
    }

    method RenameChild(func: HirFunction, block: nat, child: nat, ghost f: Func, ghost done: set<nat>,
                       ghost visited: set<nat>, ghost reached: set<nat>) returns (ok: bool)
      requires RenameReady(f) && TreeRight(f.Graph(), domTree) && block < |f.blocks|
      requires IsChild(f.Graph(), block, child) && child !in visited && Reached(f.Graph(), block, visited, reached)
      requires func.Snapshot() == PartialFunc(f, done + reached, done + reached) && done !! Below(f.Graph(), block)
      requires Tops(varStack) == EnvOut(f, block)
      modifies func, this`varStack
      ensures Below(f.Graph(), child) <= Below(f.Graph(), block) - {block}
      ensures Reached(f.Graph(), block, visited + {child}, reached + Below(f.Graph(), child))
      ensures ok <==> forall c :: c in Below(f.Graph(), child) ==> LookupsOk(f, c)
      ensures ok ==> SameStacks(varStack, old(varStack))
      ensures ok ==> var all := reached + Below(f.Graph(), child);
                     func.Snapshot() == PartialFunc(f, done + all, done + all)
      decreases |Below(f.Graph(), block)|, 0
    {
      ghost var g := f.Graph();
      ReachedWithin(g, block, visited, reached);
      ReachedMore(g, block, child, visited, reached);
      assert done + reached + Below(g, child) == done + (reached + Below(g, child));
      ok := Rename(func, child, f, done + reached);
    }

    method RenameSSA(func: HirFunction) returns (ok: bool)
      requires var f := func.Snapshot(); RenameReady(f) && TreeRight(f.Graph(), domTree)
      modifies func, this`varStack
      ensures var f := old(func.Snapshot());
              ok <==> forall b: nat :: b < |f.blocks| ==> LookupsOk(f, b)
      ensures ok ==> func.Snapshot() == Renamed(old(func.Snapshot()))
    {
      ghost var f := func.Snapshot();
      varStack := map[];
      NothingRenamed(f);
      forall b: nat ensures b in Below(f.Graph(), f.entry) <==> b < |f.blocks| { EntryDom(f.Graph(), b); }
      ok := Rename(func, func.entry, f, {});
      if ok {
        assert {} + Below(f.Graph(), f.entry) == Below(f.Graph(), f.entry);
        AllRenamed(f, Below(f.Graph(), f.entry));
      }
    }

    /** The whole pass. It fails only when some read has no reaching definition. */
    method Build(func: HirFunction) returns (ok: bool)
      requires Shaped(func.Snapshot()) && NoVarPhis(func.Snapshot())
      modifies this, func
      ensures ok ==> exists f1 :: IsSsaOf(old(func.Snapshot()), f1, func.Snapshot())
      ensures forall decl :: Ready(old(func.Snapshot()), decl) ==> ok && StrictSsa(func.Snapshot())
    {
      ghost var f := func.Snapshot();
      DomReadyWhenShaped(f);
      ComputeDoms(func);
      ComputeIDoms(func);
      BuildDomTree(f.Graph());
      ComputeDFNaive(func);
      CollectDefs(func);
      ComputePhiPos(func);
      InsertPhis(func);
      ghost var f1 := func.Snapshot();
      KeepsShape(f, f1);
      SameGraph(f, f1);
      InsertedPlaced(f, f1);
      ok := RenameSSA(func);
      assert ok ==> IsSsaOf(f, f1, func.Snapshot());
      forall decl | Ready(f, decl) ensures ok && StrictSsa(func.Snapshot()) {
        InsertionPrepares(f, f1, decl);
        AllLookupsOk(f1, decl);
        RenamedIsStrict(f1, decl);
      }
    }
  }

  lemma DomReadyWhenShaped(f: Func)
    requires Shaped(f)
    ensures DomReady(f.Graph())
  {
    var g := f.Graph();
    forall b | 0 <= b < g.Size() && b != g.entry ensures g.preds[b] != [] {
      var w := SomePath(g, b);
      assert g.Edge(w[|w| - 2], w[|w| - 1]);
    }
  }

  lemma InsertedPlaced(f: Func, f1: Func)
    requires PhisInserted(f, f1) && NoVarPhis(f)
    ensures VarPhisPlaced(f1)
  {
    forall b, i | 0 <= b < |f1.blocks| && 0 <= i < |f1.blocks[b].code| && IsVarPhi(f1, b, i)
      ensures f1.blocks[b].code[i].phis == Placeholders(f1.blocks[b].preds, f1.blocks[b].code[i].phiVar.value)
    {
      OldPhisPlain(f, f1, b);
      NewPhiReady(f, f1, b, i);
    }
  }

  /** In a well-scoped function renaming never looks up a variable without a reaching definition. */
  lemma AllLookupsOk(f: Func, decl: map<Var, nat>)
    requires PhiReady(f, decl)
    ensures forall b: nat :: b < |f.blocks| ==> LookupsOk(f, b)
  {
    forall b: nat | b < |f.blocks| ensures LookupsOk(f, b) {
      forall i | 0 <= i < |f.blocks[b].code| ensures LookupOkAt(f, b, i) {
        assert InstrScoped(f, decl, b, i);
        forall o | o in Operands(f.blocks[b].code[i]) && o.VarRef? ensures o.sym in EnvAt(f, b, i) {
          VisibleOnStack(f, decl, o.sym, b, i);
        }
      }
      forall o | o in TermOperands(f.blocks[b].term) && o.VarRef? ensures o.sym in EnvOut(f, b) {
        assert TermScoped(f, decl, b);
        VisibleOnStack(f, decl, o.sym, b, |f.blocks[b].code|);
      }
      forall s | s in f.blocks[b].succs ensures PhiLookupsOk(f, b, s) {
        PhiLookups(f, decl, b, s);
      }
    }
  }

  lemma PhiLookups(f: Func, decl: map<Var, nat>, b: nat, s: nat)
    requires PhiReady(f, decl) && b < |f.blocks|
    ensures PhiLookupsOk(f, b, s)
  {
    if s < |f.blocks| {
      forall i, k | 0 <= i < |f.blocks[s].code| && f.blocks[s].code[i].Phi? && 0 <= k < |f.blocks[s].code[i].phis|
        && f.blocks[s].code[i].phis[k].pred == b && f.blocks[s].code[i].phis[k].value.VarRef?
        ensures f.blocks[s].code[i].phis[k].value.sym in EnvOut(f, b)
      {
        assert InstrScoped(f, decl, s, i);
        assert f.blocks[s].code[i].phis[k] in f.blocks[s].code[i].phis;
        VisibleOnStack(f, decl, f.blocks[s].code[i].phis[k].value.sym, b, |f.blocks[b].code|);
      }
    }
  }
}
