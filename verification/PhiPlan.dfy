/** Bookkeeping shared by the SSA passes. */
module PhiPlan {
  import opened Graph
  import opened Wrappers
  import opened Frontier
  import opened Hir
  import opened SsaForm
  import opened RenamePlan

  /** The set stored for a key; a key never touched has the empty set. */
  function SetAt(m: map<nat, set<nat>>, k: nat): set<nat> {
    if k in m then m[k] else {}
  }

  function AddTo(m: map<nat, set<nat>>, k: nat, v: nat): (r: map<nat, set<nat>>)
    ensures forall j: nat :: SetAt(r, j) == if j == k then SetAt(m, j) + {v} else SetAt(m, j)
  {
    m[k := SetAt(m, k) + {v}]
  }

  /** In this order every block comes after its dominator-tree children. */
  ghost predicate ChildrenFirst(g: Cfg, order: seq<nat>)
    requires WellFormed(g)
  {
    && (forall i :: 0 <= i < |order| ==> order[i] < g.Size())
    && forall i, c: nat :: 0 <= i < |order| && IsChild(g, order[i], c) ==> c in order[..i]
  }

  lemma ChildrenFirstAppend(g: Cfg, order: seq<nat>, b: nat)
    requires WellFormed(g) && ChildrenFirst(g, order) && b < g.Size()
    requires forall c: nat :: IsChild(g, b, c) ==> c in order
    ensures ChildrenFirst(g, order + [b])
  {
    var longer := order + [b];
    forall i, c: nat | 0 <= i < |longer| && IsChild(g, longer[i], c) ensures c in longer[..i] {
      assert longer[..i] == order[..i];
      if i < |order| { assert IsChild(g, order[i], c); }
    }
  }

  ghost predicate BelowSome(g: Cfg, tops: set<nat>, b: nat) {
    exists c :: c in tops && b in Below(g, c)
  }

  lemma BelowSomeMore(g: Cfg, tops: set<nat>, c: nat)
    ensures forall b: nat :: BelowSome(g, tops + {c}, b) <==> BelowSome(g, tops, b) || b in Below(g, c)
  {
    forall b: nat ensures BelowSome(g, tops + {c}, b) <==> BelowSome(g, tops, b) || b in Below(g, c) {
      if BelowSome(g, tops, b) {
        var d :| d in tops && b in Below(g, d);
        assert d in tops + {c};
      }
      if b in Below(g, c) { assert c in tops + {c}; }
    }
  }

  /** `reached` is b and what lies below the children visited so far. */
  ghost predicate Reached(g: Cfg, b: nat, visited: set<nat>, reached: set<nat>)
    requires WellFormed(g)
  {
    && (forall c :: c in visited ==> IsChild(g, b, c))
    && forall c: nat :: c in reached <==> c == b || BelowSome(g, visited, c)
  }

  lemma ReachedWithin(g: Cfg, b: nat, visited: set<nat>, reached: set<nat>)
    requires WellFormed(g) && b < g.Size() && Reached(g, b, visited, reached)
    ensures reached <= Below(g, b)
  {
    DomRefl(g, b);
    forall x | x in reached ensures x in Below(g, b) {
      if x != b {
        var c :| c in visited && x in Below(g, c);
        ChildBelow(g, b, c);
      }
    }
  }

  /** The subtree of a child not visited yet is apart from what has been reached. */
  lemma ReachedMore(g: Cfg, b: nat, child: nat, visited: set<nat>, reached: set<nat>)
    requires WellFormed(g) && b < g.Size() && IsChild(g, b, child) && child !in visited
    requires Reached(g, b, visited, reached)
    ensures reached !! Below(g, child) && Below(g, child) <= Below(g, b) - {b} && |Below(g, child)| < |Below(g, b)|
    ensures Reached(g, b, visited + {child}, reached + Below(g, child))
  {
    ChildBelow(g, b, child);
    BelowSomeMore(g, visited, child);
    forall x: nat | x in reached ensures x !in Below(g, child) {
      if x != b {
        var c :| c in visited && x in Below(g, c);
        ChildrenDisjoint(g, b, c, child);
      }
    }
  }

  lemma ReachedAll(g: Cfg, b: nat, visited: set<nat>, reached: set<nat>)
    requires WellFormed(g) && b < g.Size() && Reached(g, b, visited, reached)
    requires forall c: nat :: IsChild(g, b, c) ==> c in visited
    ensures reached == Below(g, b)
  {
    ReachedWithin(g, b, visited, reached);
    forall x: nat | x in Below(g, b) ensures x in reached {
      BelowSplits(g, b, x);
    }
  }

  /** y's immediate dominator, if it has one, is not x. */
  ghost predicate IDomDiffers(g: Cfg, y: nat, x: nat)
    requires WellFormed(g) && y < g.Size()
  {
    y == g.entry || IDom(g, y) != x
  }

  /** Some block of zs has y in its frontier, and x is not y's immediate dominator. */
  ghost predicate PassedUp(g: Cfg, x: nat, zs: set<nat>, y: nat)
    requires WellFormed(g)
  {
    y < g.Size() && IDomDiffers(g, y, x) && exists z: nat :: z in zs && InDF(g, z, y)
  }

  // ----- phi insertion, block by block -----

  ghost predicate IdsBelow(f: Func) {
    forall b: nat, i: nat, d: Val :: Produces(f, b, i, d) ==> d < f.lastValueId
  }

  lemma ShapedIds(f: Func)
    requires Shaped(f)
    ensures IdsBelow(f)
  {
    forall b: nat, i: nat, d: Val | Produces(f, b, i, d) ensures d < f.lastValueId {
      assert BlockShaped(f, b) && InstrShaped(f, b, i);
    }
  }

  function InsertAt(code: seq<Instr>, pos: nat, i: Instr): (r: seq<Instr>)
    requires pos <= |code|
    ensures |r| == |code| + 1
    ensures forall k :: 0 <= k < |r| ==> r[k] == if k < pos then code[k] else if k == pos then i else code[k - 1]
  {
    code[..pos] + [i] + code[pos..]
  }

  /** f with one more instruction in block b, producing the next free value. */
  function WithInstr(f: Func, b: nat, pos: nat, i: Instr): Func
    requires b < |f.blocks| && pos <= |f.blocks[b].code|
  {
    f.(blocks := f.blocks[b := f.blocks[b].(code := InsertAt(f.blocks[b].code, pos, i))],
       lastValueId := f.lastValueId + 1)
  }

  lemma OriginalProducer(f: Func, b: nat, pos: nat, ins: Instr, c: nat, i: nat, d: Val)
    requires b < |f.blocks| && pos <= |f.blocks[b].code| && Dst(ins) == Some(f.lastValueId)
    requires Produces(WithInstr(f, b, pos, ins), c, i, d)
    ensures if c == b && i == pos then d == f.lastValueId
            else Produces(f, c, if c == b && i > pos then i - 1 else i, d)
  {
  }

  lemma InsertKeepsSingle(f: Func, b: nat, pos: nat, ins: Instr)
    requires SingleProducers(f) && IdsBelow(f)
    requires b < |f.blocks| && pos <= |f.blocks[b].code| && Dst(ins) == Some(f.lastValueId)
    ensures SingleProducers(WithInstr(f, b, pos, ins)) && IdsBelow(WithInstr(f, b, pos, ins))
  {
    var f' := WithInstr(f, b, pos, ins);
    forall c: nat, i: nat, d: Val | Produces(f', c, i, d) ensures d < f'.lastValueId {
      OriginalProducer(f, b, pos, ins, c, i, d);
    }
    forall d: Val, c: nat, i: nat, e: nat, j: nat | Produces(f', c, i, d) && Produces(f', e, j, d)
      ensures c == e && i == j
    {
      OriginalProducer(f, b, pos, ins, c, i, d);
      OriginalProducer(f, b, pos, ins, e, j, d);
    }
  }

  /** Block b of f1 is block b of f behind `pos` new phis, one for each variable of `seen` that needs it. */
  ghost predicate PartExtended(f: Func, f1: Func, b: nat, pos: nat, seen: set<Var>)
    requires b < |f.blocks| == |f1.blocks|
  {
    var code := f1.blocks[b].code;
    && pos == Shift(f, f1, b)
    && f1.blocks[b] == f.blocks[b].(code := code[..pos] + f.blocks[b].code)
    && (forall i :: 0 <= i < pos ==> IsNewPhi(f, code[i], f1.lastValueId, b) && code[i].phiVar.value in seen)
    && (forall i, j :: 0 <= i < j < pos ==> code[i].phiVar != code[j].phiVar)
    && (forall v :: v in seen && NeedsPhi(f, b, v) ==> HasPhi(f1, b, v))
  }

  lemma PartNone(f: Func, f1: Func, b: nat)
    requires b < |f.blocks| == |f1.blocks| && f1.blocks[b] == f.blocks[b]
    ensures PartExtended(f, f1, b, 0, {})
  {
  }

  lemma StillHasPhi(f1: Func, b: nat, pos: nat, ins: Instr, u: Var)
    requires b < |f1.blocks| && pos <= |f1.blocks[b].code|
    requires HasPhi(f1, b, u) || (ins.Phi? && ins.phiVar == Some(u))
    ensures HasPhi(WithInstr(f1, b, pos, ins), b, u)
  {
    var code := f1.blocks[b].code;
    var code2 := WithInstr(f1, b, pos, ins).blocks[b].code;
    assert code2[pos] == ins;
    if HasPhi(f1, b, u) {
      var i :| 0 <= i < |code| && code[i].Phi? && code[i].phiVar == Some(u);
      assert code2[if i < pos then i else i + 1] == code[i];
    }
  }

  lemma PartMore(f: Func, f1: Func, b: nat, pos: nat, seen: set<Var>, v: Var, ins: Instr)
    requires b < |f.blocks| == |f1.blocks| && PartExtended(f, f1, b, pos, seen) && v !in seen
    requires f.lastValueId <= f1.lastValueId && pos <= |f1.blocks[b].code| && NeedsPhi(f, b, v)
    requires ins == Phi(f1.lastValueId, Placeholders(f.blocks[b].preds, v), None, Some(v))
    ensures PartExtended(f, WithInstr(f1, b, pos, ins), b, pos + 1, seen + {v})
  {
    var f2 := WithInstr(f1, b, pos, ins);
    var code := f1.blocks[b].code;
    var code2 := f2.blocks[b].code;
    assert code2[..pos + 1] + f.blocks[b].code == code2;
    forall i | 0 <= i < pos + 1
      ensures IsNewPhi(f, code2[i], f2.lastValueId, b) && code2[i].phiVar.value in seen + {v}
    {
      if i < pos { assert IsNewPhi(f, code[i], f1.lastValueId, b) && code2[i] == code[i]; }
    }
    forall i, j | 0 <= i < j < pos + 1 ensures code2[i].phiVar != code2[j].phiVar {
      assert IsNewPhi(f, code[i], f1.lastValueId, b) && code2[i] == code[i];
      if j < pos { assert code2[j] == code[j]; }
    }
    forall u | u in seen + {v} && NeedsPhi(f, b, u) ensures HasPhi(f2, b, u) {
      StillHasPhi(f1, b, pos, ins, u);
    }
  }

  lemma PartSkip(f: Func, f1: Func, b: nat, pos: nat, seen: set<Var>, v: Var)
    requires b < |f.blocks| == |f1.blocks| && PartExtended(f, f1, b, pos, seen) && !NeedsPhi(f, b, v)
    ensures PartExtended(f, f1, b, pos, seen + {v})
  {
  }

  lemma PartDone(f: Func, f1: Func, b: nat, pos: nat, seen: set<Var>)
    requires b < |f.blocks| == |f1.blocks| && PartExtended(f, f1, b, pos, seen)
    requires forall v :: NeedsPhi(f, b, v) ==> v in seen
    ensures BlockExtended(f, f1, b)
  {
  }

  lemma ExtendedStays(f: Func, f1: Func, f2: Func, b: nat)
    requires b < |f.blocks| == |f1.blocks| == |f2.blocks| && BlockExtended(f, f1, b)
    requires f2.blocks[b] == f1.blocks[b] && f1.lastValueId <= f2.lastValueId
    ensures BlockExtended(f, f2, b)
  {
    forall i | 0 <= i < Shift(f, f2, b) ensures IsNewPhi(f, f2.blocks[b].code[i], f2.lastValueId, b) {
      assert IsNewPhi(f, f1.blocks[b].code[i], f1.lastValueId, b);
    }
    forall v | NeedsPhi(f, b, v) ensures HasPhi(f2, b, v) { assert HasPhi(f1, b, v); }
  }
}
