/** The states renaming goes through: which blocks' code, and which phi entries, have been resolved. */
module RenamePlan {
  import opened Wrappers
  import opened Graph
  import opened Hir
  import opened SsaForm

  /** Phis that stand for a variable still have their placeholder entries. */
  ghost predicate VarPhisPlaced(f: Func) {
    forall b, i :: 0 <= b < |f.blocks| && 0 <= i < |f.blocks[b].code| && IsVarPhi(f, b, i)
      ==> f.blocks[b].code[i].phis == Placeholders(f.blocks[b].preds, f.blocks[b].code[i].phiVar.value)
  }

  ghost predicate RenameReady(f: Func) {
    Shaped(f) && VarPhisPlaced(f)
  }

  // ----- lookups that succeed -----

  ghost predicate OnStacks(env: Env, os: seq<Operand>) {
    forall o :: o in os && o.VarRef? ==> o.sym in env
  }

  ghost predicate EntryOnStacks(env: Env, phis: seq<Incoming>, p: nat) {
    forall k :: 0 <= k < |phis| && phis[k].pred == p && phis[k].value.VarRef? ==> phis[k].value.sym in env
  }

  /** Every variable that renaming looks up while visiting b has a reaching definition. */
  ghost predicate LookupsOk(f: Func, b: nat)
    requires WellFormed(f.Graph()) && b < |f.blocks|
  {
    && BodyLookupsOk(f, b)
    && OnStacks(EnvOut(f, b), TermOperands(f.blocks[b].term))
    && forall s :: s in f.blocks[b].succs ==> PhiLookupsOk(f, b, s)
  }

  ghost predicate BodyLookupsOk(f: Func, b: nat)
    requires WellFormed(f.Graph()) && b < |f.blocks|
  {
    forall i :: 0 <= i < |f.blocks[b].code| ==> LookupOkAt(f, b, i)
  }

  ghost predicate LookupOkAt(f: Func, b: nat, i: nat)
    requires WellFormed(f.Graph()) && b < |f.blocks| && i < |f.blocks[b].code|
  {
    f.blocks[b].code[i].Phi? || OnStacks(EnvAt(f, b, i), Operands(f.blocks[b].code[i]))
  }

  ghost predicate PhiLookupsOk(f: Func, b: nat, s: nat)
    requires WellFormed(f.Graph()) && b < |f.blocks|
  {
    s < |f.blocks| ==> forall i :: 0 <= i < |f.blocks[s].code| && f.blocks[s].code[i].Phi?
                         ==> EntryOnStacks(EnvOut(f, b), f.blocks[s].code[i].phis, b)
  }

  // ----- partial results -----

  /** Entries of the given predecessor, renamed. */
  function FillPhis(env: Env, phis: seq<Incoming>, p: nat): (r: seq<Incoming>)
    ensures |r| == |phis|
  {
    seq(|phis|, k requires 0 <= k < |phis| =>
      if phis[k].pred == p then phis[k].(value := RenameOperand(env, phis[k].value)) else phis[k])
  }

  ghost function PartialPhis(f: Func, outs: set<nat>, phis: seq<Incoming>): (r: seq<Incoming>)
    requires WellFormed(f.Graph())
    ensures |r| == |phis|
  {
    seq(|phis|, k requires 0 <= k < |phis| => if phis[k].pred in outs then RenameIncoming(f, phis[k]) else phis[k])
  }

  ghost function PartialInstr(f: Func, bodies: set<nat>, outs: set<nat>, b: nat, i: nat): Instr
    requires WellFormed(f.Graph()) && b < |f.blocks| && i < |f.blocks[b].code|
  {
    var ins := f.blocks[b].code[i];
    if ins.Phi? then ins.(phis := PartialPhis(f, outs, ins.phis))
    else if b in bodies then RenameInstr(EnvAt(f, b, i), ins) else ins
  }

  ghost function PartialBlock(f: Func, bodies: set<nat>, outs: set<nat>, b: nat): (r: Block)
    requires WellFormed(f.Graph()) && b < |f.blocks|
    ensures |r.code| == |f.blocks[b].code|
  {
    var blk := f.blocks[b];
    blk.(code := seq(|blk.code|, i requires 0 <= i < |blk.code| => PartialInstr(f, bodies, outs, b, i)),
         term := if b in bodies then RenameTerm(EnvOut(f, b), blk.term) else blk.term)
  }

  /** Code and terminators of `bodies` are renamed, and the phi entries for the blocks in `outs` are filled. */
  ghost function PartialFunc(f: Func, bodies: set<nat>, outs: set<nat>): (r: Func)
    requires WellFormed(f.Graph())
    ensures |r.blocks| == |f.blocks| && r.entry == f.entry && r.lastValueId == f.lastValueId
  {
    f.(blocks := seq(|f.blocks|, b requires 0 <= b < |f.blocks| => PartialBlock(f, bodies, outs, b)))
  }

  lemma NothingRenamed(f: Func)
    requires WellFormed(f.Graph())
    ensures PartialFunc(f, {}, {}) == f
  {
    forall b | 0 <= b < |f.blocks| ensures PartialBlock(f, {}, {}, b) == f.blocks[b] {
      var blk := f.blocks[b];
      forall i | 0 <= i < |blk.code| ensures PartialInstr(f, {}, {}, b, i) == blk.code[i] {
        if blk.code[i].Phi? { assert PartialPhis(f, {}, blk.code[i].phis) == blk.code[i].phis; }
      }
      assert PartialBlock(f, {}, {}, b).code == blk.code;
    }
    assert PartialFunc(f, {}, {}).blocks == f.blocks;
  }

  lemma AllRenamed(f: Func, all: set<nat>)
    requires Shaped(f) && forall b: nat :: b < |f.blocks| ==> b in all
    ensures PartialFunc(f, all, all) == Renamed(f)
  {
    forall b | 0 <= b < |f.blocks| ensures PartialBlock(f, all, all, b) == RenamedBlock(f, b) {
      var blk := f.blocks[b];
      assert BlockShaped(f, b);
      forall i | 0 <= i < |blk.code| ensures PartialInstr(f, all, all, b, i) == RenamedInstr(f, b, i) {
        if blk.code[i].Phi? {
          var phis := blk.code[i].phis;
          forall k | 0 <= k < |phis| ensures PartialPhis(f, all, phis)[k] == RenamePhis(f, phis)[k] {}
          assert PartialPhis(f, all, phis) == RenamePhis(f, phis);
        }
      }
      assert PartialBlock(f, all, all, b).code == RenamedBlock(f, b).code;
    }
    assert PartialFunc(f, all, all).blocks == Renamed(f).blocks;
  }

  // ----- moving from one partial result to the next -----

  /** Block b while its code is being renamed: the first n instructions are done. */
  ghost function MidBody(f: Func, done: set<nat>, b: nat, n: nat): (r: Block)
    requires WellFormed(f.Graph()) && b < |f.blocks| && n <= |f.blocks[b].code|
    ensures |r.code| == |f.blocks[b].code|
  {
    var blk := f.blocks[b];
    blk.(code := seq(|blk.code|, i requires 0 <= i < |blk.code| =>
                   PartialInstr(f, if i < n then done + {b} else done, done, b, i)))
  }

  lemma BodyStarts(f: Func, done: set<nat>, b: nat)
    requires WellFormed(f.Graph()) && b < |f.blocks| && b !in done
    ensures PartialBlock(f, done, done, b) == MidBody(f, done, b, 0)
  {
    assert PartialBlock(f, done, done, b).code == MidBody(f, done, b, 0).code;
  }

  lemma BodyAdvances(f: Func, done: set<nat>, b: nat, n: nat)
    requires WellFormed(f.Graph()) && b < |f.blocks| && n < |f.blocks[b].code| && b !in done
    ensures MidBody(f, done, b, n).code[n] == PartialInstr(f, done, done, b, n)
    ensures var mid := MidBody(f, done, b, n);
            mid.(code := mid.code[n := PartialInstr(f, done + {b}, done, b, n)]) == MidBody(f, done, b, n + 1)
  {
    var mid := MidBody(f, done, b, n);
    assert mid.code[n := PartialInstr(f, done + {b}, done, b, n)] == MidBody(f, done, b, n + 1).code;
  }

  lemma OtherBodies(f: Func, done: set<nat>, outs: set<nat>, b: nat, c: nat)
    requires WellFormed(f.Graph()) && c < |f.blocks| && c != b
    ensures PartialBlock(f, done + {b}, outs, c) == PartialBlock(f, done, outs, c)
  {
    assert PartialBlock(f, done + {b}, outs, c).code == PartialBlock(f, done, outs, c).code;
  }

  /** With its code and terminator renamed, b has joined the finished bodies. */
  lemma BodyFinishes(f: Func, done: set<nat>, b: nat, blocks: seq<Block>)
    requires WellFormed(f.Graph()) && b < |f.blocks| == |blocks| && b !in done
    requires blocks == PartialFunc(f, done, done).blocks[b :=
               MidBody(f, done, b, |f.blocks[b].code|).(term := RenameTerm(EnvOut(f, b), f.blocks[b].term))]
    ensures blocks == PartialFunc(f, done + {b}, done).blocks
  {
    var target := PartialFunc(f, done + {b}, done).blocks;
    forall c | 0 <= c < |blocks| ensures blocks[c] == target[c] {
      if c == b {
        assert MidBody(f, done, b, |f.blocks[b].code|).code == target[b].code;
      } else {
        OtherBodies(f, done, done, b, c);
      }
    }
  }

  /** Block s while its phi entries for b are being filled: the first n instructions are done. */
  ghost function MidFill(f: Func, bodies: set<nat>, outs: set<nat>, b: nat, s: nat, n: nat): (r: Block)
    requires WellFormed(f.Graph()) && s < |f.blocks| && n <= |f.blocks[s].code|
    ensures |r.code| == |f.blocks[s].code|
  {
    var blk := PartialBlock(f, bodies, outs, s);
    blk.(code := seq(|blk.code|, i requires 0 <= i < |blk.code| =>
                   PartialInstr(f, bodies, if i < n then outs + {b} else outs, s, i)))
  }

  lemma FillStarts(f: Func, bodies: set<nat>, outs: set<nat>, b: nat, s: nat)
    requires WellFormed(f.Graph()) && s < |f.blocks|
    ensures PartialBlock(f, bodies, outs, s) == MidFill(f, bodies, outs, b, s, 0)
  {
    assert PartialBlock(f, bodies, outs, s).code == MidFill(f, bodies, outs, b, s, 0).code;
  }

  lemma FillAdvances(f: Func, bodies: set<nat>, outs: set<nat>, b: nat, s: nat, n: nat)
    requires WellFormed(f.Graph()) && s < |f.blocks| && n < |f.blocks[s].code|
    ensures MidFill(f, bodies, outs, b, s, n).code[n] == PartialInstr(f, bodies, outs, s, n)
    ensures var mid := MidFill(f, bodies, outs, b, s, n);
            mid.(code := mid.code[n := PartialInstr(f, bodies, outs + {b}, s, n)])
              == MidFill(f, bodies, outs, b, s, n + 1)
  {
    var mid := MidFill(f, bodies, outs, b, s, n);
    assert mid.code[n := PartialInstr(f, bodies, outs + {b}, s, n)] == MidFill(f, bodies, outs, b, s, n + 1).code;
  }

  lemma FillFinishes(f: Func, bodies: set<nat>, outs: set<nat>, b: nat, s: nat, n: nat)
    requires WellFormed(f.Graph()) && s < |f.blocks| && n <= |f.blocks[s].code|
    requires forall i :: n <= i < |f.blocks[s].code| ==> !f.blocks[s].code[i].Phi?
    ensures MidFill(f, bodies, outs, b, s, n) == PartialBlock(f, bodies, outs + {b}, s)
  {
    assert MidFill(f, bodies, outs, b, s, n).code == PartialBlock(f, bodies, outs + {b}, s).code;
  }

  /** A block that is no successor of b has no entries for b. */
  lemma NothingToFill(f: Func, bodies: set<nat>, outs: set<nat>, b: nat, s: nat)
    requires Shaped(f) && s < |f.blocks| && b < |f.blocks| && s !in f.blocks[b].succs
    ensures PartialBlock(f, bodies, outs + {b}, s) == PartialBlock(f, bodies, outs, s)
  {
    assert BlockShaped(f, s);
    var blk := f.blocks[s];
    forall i | 0 <= i < |blk.code|
      ensures PartialInstr(f, bodies, outs + {b}, s, i) == PartialInstr(f, bodies, outs, s, i)
    {
      if blk.code[i].Phi? {
        assert InstrShaped(f, s, i);
        var phis := blk.code[i].phis;
        assert s !in f.Graph().succs[b];
        assert b !in f.Graph().preds[s];
        assert forall k :: 0 <= k < |phis| ==> phis[k].pred in blk.preds;
        assert PartialPhis(f, outs + {b}, phis) == PartialPhis(f, outs, phis);
      }
    }
    assert PartialBlock(f, bodies, outs + {b}, s).code == PartialBlock(f, bodies, outs, s).code;
  }

  /** Filling the entries for b adds b to the predecessors accounted for. */
  lemma FillAddsPred(f: Func, outs: set<nat>, phis: seq<Incoming>, b: nat)
    requires WellFormed(f.Graph()) && b < |f.blocks| && b !in outs
    ensures FillPhis(EnvOut(f, b), PartialPhis(f, outs, phis), b) == PartialPhis(f, outs + {b}, phis)
    ensures EntryOnStacks(EnvOut(f, b), PartialPhis(f, outs, phis), b) <==> EntryOnStacks(EnvOut(f, b), phis, b)
  {
    var p := PartialPhis(f, outs, phis);
    forall k | 0 <= k < |phis| ensures FillPhis(EnvOut(f, b), p, b)[k] == PartialPhis(f, outs + {b}, phis)[k] {}
    forall k | 0 <= k < |phis| && phis[k].pred == b ensures p[k] == phis[k] {}
  }

  /** b has one entry in each phi of a successor. */
  ghost predicate OneEntry(i: Instr, b: nat) {
    && i.Phi? && (exists k :: 0 <= k < |i.phis| && i.phis[k].pred == b)
    && (forall j, k :: 0 <= j < k < |i.phis| ==> i.phis[j].pred != i.phis[k].pred)
    && (i.phiVar.Some? ==>
          forall k :: 0 <= k < |i.phis| && i.phis[k].pred == b ==> i.phis[k].value == VarRef(i.phiVar.value))
  }

  lemma SuccessorEntry(f: Func, bodies: set<nat>, outs: set<nat>, b: nat, s: nat, i: nat)
    requires RenameReady(f) && b < |f.blocks| && s < |f.blocks| && s in f.blocks[b].succs && b !in outs
    requires i < |f.blocks[s].code| && f.blocks[s].code[i].Phi?
    ensures OneEntry(PartialInstr(f, bodies, outs, s, i), b)
  {
    assert s in f.Graph().succs[b];
    assert f.Graph().Edge(b, s);
    assert BlockShaped(f, s) && InstrShaped(f, s, i);
    assert IsVarPhi(f, s, i) ==>
        f.blocks[s].code[i].phis == Placeholders(f.blocks[s].preds, f.blocks[s].code[i].phiVar.value);
    var k :| 0 <= k < |f.blocks[s].preds| && f.blocks[s].preds[k] == b;
    assert PartialInstr(f, bodies, outs, s, i).phis[k].pred == b;
  }

  // ----- the part of the dominator tree below a block -----

  ghost function Below(g: Cfg, b: nat): (s: set<nat>)
    ensures forall c: nat :: c in s <==> c < g.Size() && Dom(g, b, c)
  {
    set c: nat | c < g.Size() && Dom(g, b, c)
  }

  ghost predicate IsChild(g: Cfg, b: nat, c: nat)
    requires WellFormed(g)
  {
    c < g.Size() && c != g.entry && IDom(g, c) == b
  }

  lemma ChildBelow(g: Cfg, b: nat, c: nat)
    requires WellFormed(g) && b < g.Size() && IsChild(g, b, c)
    ensures Below(g, c) <= Below(g, b) - {b} && |Below(g, c)| < |Below(g, b)|
  {
    DomRefl(g, b);
    forall x | x in Below(g, c) ensures x in Below(g, b) - {b} {
      SDomTrans(g, b, c, x);
    }
    assert b in Below(g, b);
    SubsetSize(Below(g, c), Below(g, b) - {b});
  }

  lemma ChildrenDisjoint(g: Cfg, b: nat, c: nat, d: nat)
    requires WellFormed(g) && b < g.Size() && IsChild(g, b, c) && IsChild(g, b, d) && c != d
    ensures Below(g, c) !! Below(g, d)
  {
    forall x | x in Below(g, c) ensures x !in Below(g, d) {
      if x in Below(g, d) {
        DomChain(g, c, d, x);
        if Dom(g, c, d) {
          SDomIDom(g, c, d);
          DomAntisym(g, c, b);
        } else {
          SDomIDom(g, d, c);
          DomAntisym(g, d, b);
        }
      }
    }
  }

  /** Everything below b is b itself or below one of its children. */
  lemma BelowSplits(g: Cfg, b: nat, x: nat)
    requires WellFormed(g) && b < g.Size()
    ensures x in Below(g, b) <==> x == b || exists c: nat :: IsChild(g, b, c) && x in Below(g, c)
  {
    DomRefl(g, b);
    if x in Below(g, b) && x != b {
      var c := ChildTowards(g, b, x);
      assert IsChild(g, b, c);
    }
    if c: nat :| IsChild(g, b, c) && x in Below(g, c) {
      ChildBelow(g, b, c);
    }
  }

  // ----- stacks -----

  type Stacks = map<Var, seq<Val>>

  function Stack(s: Stacks, v: Var): seq<Val> { if v in s then s[v] else [] }

  function Tops(s: Stacks): Env {
    map v | v in s && s[v] != [] :: s[v][|s[v]| - 1]
  }

  function PushOn(s: Stacks, v: Var, d: Val): Stacks {
    s[v := Stack(s, v) + [d]]
  }

  ghost predicate SameStacks(s: Stacks, t: Stacks) {
    forall v :: Stack(s, v) == Stack(t, v)
  }

  lemma TopsPush(s: Stacks, v: Var, d: Val)
    ensures Tops(PushOn(s, v, d)) == Tops(s)[v := d]
  {
  }

  lemma TopsSame(s: Stacks, t: Stacks)
    requires SameStacks(s, t)
    ensures Tops(s) == Tops(t)
  {
    forall v ensures v in Tops(s) <==> v in Tops(t) {
      assert Stack(s, v) == Stack(t, v);
      assert v in Tops(s) <==> Stack(s, v) != [];
      assert v in Tops(t) <==> Stack(t, v) != [];
    }
    forall v | v in Tops(s) ensures Tops(s)[v] == Tops(t)[v] {
      assert Stack(s, v) == Stack(t, v);
    }
  }

  function Count(pushed: seq<Var>, v: Var): nat {
    if pushed == [] then 0
    else Count(pushed[..|pushed| - 1], v) + (if pushed[|pushed| - 1] == v then 1 else 0)
  }

  /** s is t with one more value on v's stack for each occurrence of v in `pushed`. */
  ghost predicate PushedOver(s: Stacks, t: Stacks, pushed: seq<Var>) {
    forall v :: StackOver(s, t, pushed, v)
  }

  ghost predicate StackOver(s: Stacks, t: Stacks, pushed: seq<Var>, v: Var) {
    |Stack(s, v)| == |Stack(t, v)| + Count(pushed, v) && Stack(t, v) <= Stack(s, v)
  }

  lemma CountAppend(pushed: seq<Var>, v: Var, u: Var)
    ensures Count(pushed + [v], u) == Count(pushed, u) + (if u == v then 1 else 0)
  {
    assert (pushed + [v])[..|pushed|] == pushed;
  }

  lemma PushedMore(s: Stacks, t: Stacks, pushed: seq<Var>, v: Var, d: Val)
    requires PushedOver(s, t, pushed)
    ensures PushedOver(PushOn(s, v, d), t, pushed + [v])
  {
    forall u ensures StackOver(PushOn(s, v, d), t, pushed + [v], u) {
      assert StackOver(s, t, pushed, u);
      CountAppend(pushed, v, u);
    }
  }

  lemma PushedPop(s: Stacks, t: Stacks, pushed: seq<Var>, v: Var)
    requires PushedOver(s, t, pushed + [v])
    ensures v in s && s[v] != []
    ensures PushedOver(s[v := s[v][..|s[v]| - 1]], t, pushed)
  {
    assert StackOver(s, t, pushed + [v], v);
    CountAppend(pushed, v, v);
    var s' := s[v := s[v][..|s[v]| - 1]];
    forall u ensures StackOver(s', t, pushed, u) {
      assert StackOver(s, t, pushed + [v], u);
      CountAppend(pushed, v, u);
    }
  }

  lemma PushedNone(s: Stacks, t: Stacks)
    ensures PushedOver(s, t, []) <==> SameStacks(s, t)
  {
    if PushedOver(s, t, []) {
      forall v ensures Stack(s, v) == Stack(t, v) { assert StackOver(s, t, [], v); }
    }
    if SameStacks(s, t) {
      forall v ensures StackOver(s, t, [], v) { assert Stack(s, v) == Stack(t, v); }
    }
  }

  lemma PushedSame(s: Stacks, s': Stacks, t: Stacks, pushed: seq<Var>)
    requires PushedOver(s, t, pushed) && SameStacks(s', s)
    ensures PushedOver(s', t, pushed)
  {
    forall v ensures StackOver(s', t, pushed, v) {
      assert Stack(s', v) == Stack(s, v) && StackOver(s, t, pushed, v);
    }
  }
}
