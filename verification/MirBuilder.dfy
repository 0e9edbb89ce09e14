/** The lowering pass: block by block code, then the copies that phis ask of predecessors. */
module MirBuilder {
  import opened Wrappers
  import opened Hir
  import opened SsaStrict
  import opened ParallelCopy
  import opened MirLowering
  import Mir

  /** The copies collected so far for block p. */
  function CopiesAtPred(m: map<nat, seq<Copy>>, p: nat): seq<Copy> {
    if p in m then m[p] else []
  }

  function AddCopy(m: map<nat, seq<Copy>>, p: nat, c: Copy): map<nat, seq<Copy>> {
    m[p := CopiesAtPred(m, p) + [c]]
  }

  /** Every operand is a value by now, and no operation lacks a machine form. */
  ghost predicate Convertible(f: Func) {
    forall b :: 0 <= b < |f.blocks| ==> BlockConvertible(f, b)
  }

  ghost predicate BlockConvertible(f: Func, b: nat)
    requires b < |f.blocks|
  {
    ConvertibleTo(f.blocks[b].code, |f.blocks[b].code|)
  }

  ghost predicate ConvertibleTo(code: seq<Instr>, n: nat)
    requires n <= |code|
  {
    forall i :: 0 <= i < n ==> InstrConvertible(code[i])
  }

  ghost predicate InstrConvertible(i: Instr) {
    match i
    case Compute(op, _, args, _) => op != LogicalNot && AllValues(args)
    case Print(a) => a.Value?
    case Bind(_, _) => true
    case Phi(_, phis, _, _) => EntriesResolved(phis, |phis|)
  }

  ghost predicate EntriesResolved(phis: seq<Incoming>, n: nat)
    requires n <= |phis|
  {
    forall k :: 0 <= k < n ==> phis[k].value.Value?
  }

  method ConvertArgs(args: seq<Operand>) returns (r: Option<seq<Val>>)
    ensures r == if AllValues(args) then Some(Ids(args)) else None
  {
    var ids := [];
    var k: nat := 0;
    while k < |args|
      invariant k <= |args| && |ids| == k
      invariant forall j :: 0 <= j < k ==> args[j].Value? && ids[j] == Id(args[j])
    {
      if args[k].VarRef? {
        assert args[k] in args;
        return None;
      }
      ids := ids + [args[k].id];
      k := k + 1;
    }
    assert ids == Ids(args);
    return Some(ids);
  }

  class MirBuilder {
    var lastValueId: nat
    var blocks: seq<Mir.Block>
    var parallelCopies: map<nat, seq<Copy>>

    constructor () {
      lastValueId, blocks, parallelCopies := 0, [], map[];
    }

    /** None for an operand that is still a variable reference, and for logical negation. */
    method LowerHirInstr(i: Instr) returns (r: Option<seq<Mir.Instr>>)
      ensures r == if i.Phi? || InstrConvertible(i) then Some(LowerInstr(i)) else None
    {
      match i {
        case Compute(op, dst, args, _) =>
          if op == LogicalNot { return None; }
          var ids := ConvertArgs(args);
          if ids.None? { return None; }
          return Some([Mir.Compute(op, dst, ids.value)]);
        case Print(a) =>
          var ids := ConvertArgs([a]);
          assert ids.Some? <==> [a][0].Value?;
          if ids.None? { return None; }
          return Some([Mir.Print(ids.value[0])]);
        case Bind(_, _) => return Some([]);
        case Phi(_, _, _, _) => return Some([]);
      }
    }

    /** Every entry of a phi has to be a value by now. */
    method CheckEntries(phis: seq<Incoming>) returns (ok: bool)
      ensures ok <==> EntriesResolved(phis, |phis|)
    {
      var k: nat := 0;
      while k < |phis|
        invariant k <= |phis| && EntriesResolved(phis, k)
      {
        if phis[k].value.VarRef? { return false; }
        k := k + 1;
      }
      return true;
    }

    /** One copy per entry, filed under the entry's predecessor. */
    method CollectCopies(dst: Val, phis: seq<Incoming>)
      requires EntriesResolved(phis, |phis|)
      modifies this`parallelCopies
      ensures Appended(parallelCopies, old(parallelCopies), dst, phis, |phis|)
      ensures forall p :: p in parallelCopies ==> p in old(parallelCopies) || IsPred(phis, p)
    {
      var k: nat := 0;
      AppendedNone(parallelCopies, dst, phis);
      while k < |phis|
        invariant k <= |phis| && Appended(parallelCopies, old(parallelCopies), dst, phis, k)
        invariant forall p :: p in parallelCopies ==> p in old(parallelCopies) || IsPred(phis, p)
      {
        assert IsPred(phis, phis[k].pred);
        AppendedMore(parallelCopies, old(parallelCopies), dst, phis, k);
        parallelCopies := AddCopy(parallelCopies, phis[k].pred, Copy(dst, phis[k].value.id));
        k := k + 1;
      }
    }

    /** Instruction i, and the copies it asks for if it is a phi. */
    method LowerAt(f: Func, b: nat, i: nat) returns (r: Option<seq<Mir.Instr>>)
      requires Shaped(f) && b < |f.blocks| && i < |f.blocks[b].code|
      requires CopiesReach(f, parallelCopies, b, i)
      modifies this`parallelCopies
      ensures r == if InstrConvertible(f.blocks[b].code[i]) then Some(LowerInstr(f.blocks[b].code[i])) else None
      ensures r.Some? ==> CopiesReach(f, parallelCopies, b, i + 1)
    {
      var ins := f.blocks[b].code[i];
      r := LowerHirInstr(ins);
      if r.None? { return; }
      match ins {
        case Phi(dst, phis, _, _) =>
          PhiPredsInRange(f, b, i);
          ghost var before := parallelCopies;
          var ok := CheckEntries(phis);
          if !ok { return None; }
          CollectCopies(dst, phis);
          ReachAfterPhi(f, before, parallelCopies, b, i);
        case _ => ReachAfterOther(f, parallelCopies, b, i);
      }
    }

    /** A block's instructions, and the copies its phis ask for. */
    method LowerBlock(f: Func, b: nat) returns (r: Option<seq<Mir.Instr>>)
      requires Shaped(f) && b < |f.blocks| && CopiesReach(f, parallelCopies, b, 0)
      modifies this`parallelCopies
      ensures r.Some? <==> BlockConvertible(f, b)
      ensures r.Some? ==> r.value == LowerCode(f.blocks[b].code, |f.blocks[b].code|)
      ensures r.Some? ==> CopiesReach(f, parallelCopies, b, |f.blocks[b].code|)
    {
      var code := f.blocks[b].code;
      var lowered := [];
      var i: nat := 0;
      while i < |code|
        invariant i <= |code| && lowered == LowerCode(code, i)
        invariant ConvertibleTo(code, i)
        invariant CopiesReach(f, parallelCopies, b, i)
      {
        var instrs := LowerAt(f, b, i);
        if instrs.None? {
          assert !InstrConvertible(code[i]);
          return None;
        }
        lowered := lowered + instrs.value;
        i := i + 1;
      }
      return Some(lowered);
    }

    /** Appends the moves for one block's copies. */
    method EmitMoves(f: Func, p: nat)
      requires Shaped(f) && p < |f.blocks| == |blocks| && f.lastValueId <= lastValueId
      requires parallelCopies.Keys >= {p} && parallelCopies[p] == CopiesFrom(f, p)
      requires blocks[p].code == LowerCode(f.blocks[p].code, |f.blocks[p].code|)
      modifies this`blocks, this`lastValueId
      ensures |blocks| == |f.blocks| && old(lastValueId) <= lastValueId
      ensures forall c :: 0 <= c < |blocks| && c != p ==> blocks[c] == old(blocks)[c]
      ensures blocks[p] == old(blocks)[p].(code := blocks[p].code)
      ensures TailDone(f, blocks[p].code, p)
      ensures old(blocks)[p].code <= blocks[p].code
      ensures Mir.CodeFits(old(blocks)[p].code, old(lastValueId)) ==> Mir.CodeFits(blocks[p].code, lastValueId)
      ensures forall t: nat :: old(lastValueId) <= t < lastValueId ==> CodeMovesTo(blocks[p].code, t)
    {
      var copies := parallelCopies[p];
      CopiesDistinct(f, |f.blocks|, p);
      forall k | 0 <= k < |copies| ensures copies[k].dst < f.lastValueId && copies[k].src < f.lastValueId {
        CopiesBelow(f, p, k);
      }
      var moves, next := Drain(copies, lastValueId);
      var code := blocks[p].code;
      ghost var low := code;
      var k: nat := 0;
      while k < |moves|
        invariant k <= |moves| && |code| == |low| + k && code[..|low|] == low
        invariant forall j :: |low| <= j < |code| ==> code[j] == Mir.Move(moves[j - |low|].dst, moves[j - |low|].src)
      {
        code := code + [Mir.Move(moves[k].dst, moves[k].src)];
        k := k + 1;
      }
      assert MovesAt(code, |low|) == moves;
      MovesAppended(low, code, moves, lastValueId, next);
      blocks := blocks[p := blocks[p].(code := code)];
      lastValueId := next;
    }

    /** Every block's code; the copies phis ask for are collected on the way. */
    method LowerBlocks(f: Func) returns (ok: bool)
      requires Shaped(f)
      modifies this
      ensures ok <==> Convertible(f)
      ensures ok ==> lastValueId == f.lastValueId && |blocks| == |f.blocks|
      ensures ok ==> forall c :: 0 <= c < |f.blocks| ==> BlockTranslated(f, c, blocks[c])
      ensures ok ==> AllCollected(f, parallelCopies) && AllCodeFits(blocks, f.lastValueId)
    {
      blocks, parallelCopies, lastValueId := [], map[], f.lastValueId;
      var b: nat := 0;
      while b < |f.blocks|
        invariant b <= |f.blocks| && |blocks| == b && lastValueId == f.lastValueId
        invariant if b < |f.blocks| then CopiesReach(f, parallelCopies, b, 0) else AllCollected(f, parallelCopies)
        invariant forall c :: 0 <= c < b ==> BlockTranslated(f, c, blocks[c]) && BlockConvertible(f, c)
      {
        var code := LowerBlock(f, b);
        if code.None? { return false; }
        ReachNextBlock(f, parallelCopies, b);
        blocks := blocks + [Mir.Block(code.value, f.blocks[b].term, f.blocks[b].preds, f.blocks[b].succs)];
        b := b + 1;
      }
      forall c | 0 <= c < |f.blocks| ensures Mir.CodeFits(blocks[c].code, f.lastValueId) {
        assert BlockTranslated(f, c, blocks[c]) && BlockConvertible(f, c);
        TranslatedFits(f, c);
      }
      return true;
    }

    /** The moves of every block that has copies to make. */
    method EmitAllMoves(f: Func)
      requires Shaped(f) && |blocks| == |f.blocks| && f.lastValueId <= lastValueId && AllCollected(f, parallelCopies)
      requires forall c :: 0 <= c < |f.blocks| ==> BlockTranslated(f, c, blocks[c])
      requires AllCodeFits(blocks, lastValueId) && lastValueId == f.lastValueId
      modifies this`blocks, this`lastValueId
      ensures |blocks| == |f.blocks| && f.lastValueId <= lastValueId
      ensures forall c :: 0 <= c < |f.blocks| ==> BlockFinished(f, c, blocks[c])
      ensures AllCodeFits(blocks, lastValueId) && AllMovedTo(blocks, f.lastValueId, lastValueId)
    {
      var rest := parallelCopies.Keys;
      forall c | 0 <= c < |f.blocks| && c !in rest ensures BlockFinished(f, c, blocks[c]) {
        assert CopiesAtPred(parallelCopies, c) == CopiesFrom(f, c);
        NoCopiesFinished(f, c, blocks[c]);
      }
      while rest != {}
        invariant rest <= parallelCopies.Keys && |blocks| == |f.blocks| && f.lastValueId <= lastValueId
        invariant forall c :: 0 <= c < |f.blocks|
                    ==> if c in rest then BlockTranslated(f, c, blocks[c]) else BlockFinished(f, c, blocks[c])
        invariant AllCodeFits(blocks, lastValueId) && AllMovedTo(blocks, f.lastValueId, lastValueId)
        decreases rest
      {
        var p :| p in rest;
        assert CopiesAtPred(parallelCopies, p) == CopiesFrom(f, p);
        assert BlockTranslated(f, p, blocks[p]);
        ghost var before, bound := blocks, lastValueId;
        EmitMoves(f, p);
        assert BlockFinished(f, p, blocks[p]);
        BlockExtendedFits(before, blocks, p, f.lastValueId, bound, lastValueId);
        rest := rest - {p};
      }
    }

    /** First the blocks' code, then the moves. */
    method LowerHirFunc(f: Func) returns (r: Option<Mir.Func>)
      requires Shaped(f)
      modifies this
      ensures r.Some? <==> Convertible(f)
      ensures r.Some? ==> IsLowering(f, r.value) && Mir.FitsFrame(r.value) && TempsUsed(f, r.value)
    {
      var ok := LowerBlocks(f);
      if !ok { return None; }
      EmitAllMoves(f);
      var m := Mir.Func(f.entry, blocks, lastValueId);
      forall c | 0 <= c < |f.blocks| ensures BlockLowered(f, m, c) && BlockHasMachineForm(f, c) {
        assert BlockFinished(f, c, blocks[c]) && BlockConvertible(f, c);
      }
      forall c | 0 <= c < |blocks| ensures Mir.BlockFits(m, c) {
        assert BlockShaped(f, c) && BlockFinished(f, c, blocks[c]) && Mir.CodeFits(blocks[c].code, lastValueId);
      }
      return Some(m);
    }
  }

  /** The code of a convertible block fits the values of its function. */
  lemma TranslatedFits(f: Func, b: nat)
    requires Shaped(f) && b < |f.blocks| && BlockConvertible(f, b)
    ensures Mir.CodeFits(LowerCode(f.blocks[b].code, |f.blocks[b].code|), f.lastValueId)
  {
    var code := f.blocks[b].code;
    forall i | 0 <= i < |code|
      ensures ValuesBelow(code[i], f.lastValueId) && ReadsValues(code[i])
    {
      assert BlockShaped(f, b) && InstrShaped(f, b, i) && InstrConvertible(code[i]);
    }
    LowerCodeFits(code, |code|, f.lastValueId);
  }

  // ----- how far the copies have been collected -----

  ghost predicate IsPred(phis: seq<Incoming>, p: nat) {
    exists k :: 0 <= k < |phis| && phis[k].pred == p
  }

  /** The first n entries of a phi have been added. */
  ghost predicate Appended(now: map<nat, seq<Copy>>, before: map<nat, seq<Copy>>, dst: Val, phis: seq<Incoming>, n: nat)
    requires n <= |phis|
  {
    forall p: nat :: AppendedFor(now, before, dst, phis, n, p)
  }

  ghost predicate AppendedFor(now: map<nat, seq<Copy>>, before: map<nat, seq<Copy>>, dst: Val, phis: seq<Incoming>,
                              n: nat, p: nat)
    requires n <= |phis|
  {
    CopiesAtPred(now, p) == CopiesAtPred(before, p) + CopiesOfPhi(dst, phis, n, p)
  }

  lemma AppendedNone(m: map<nat, seq<Copy>>, dst: Val, phis: seq<Incoming>)
    ensures Appended(m, m, dst, phis, 0)
  {
    forall p: nat ensures AppendedFor(m, m, dst, phis, 0, p) {
      assert CopiesAtPred(m, p) + [] == CopiesAtPred(m, p);
    }
  }

  lemma AppendedMore(now: map<nat, seq<Copy>>, before: map<nat, seq<Copy>>, dst: Val, phis: seq<Incoming>, n: nat)
    requires n < |phis| && Appended(now, before, dst, phis, n) && phis[n].value.Value?
    ensures Appended(AddCopy(now, phis[n].pred, Copy(dst, phis[n].value.id)), before, dst, phis, n + 1)
  {
    var next := AddCopy(now, phis[n].pred, Copy(dst, phis[n].value.id));
    var m := n + 1;
    forall p: nat ensures AppendedFor(next, before, dst, phis, m, p) {
      assert AppendedFor(now, before, dst, phis, n, p);
      AppendedAt(CopiesAtPred(before, p), dst, phis, n, p);
    }
  }

  lemma AppendedAt(before: seq<Copy>, dst: Val, phis: seq<Incoming>, n: nat, p: nat)
    requires n < |phis| && phis[n].value.Value?
    ensures before + CopiesOfPhi(dst, phis, n + 1, p) ==
            if phis[n].pred == p then (before + CopiesOfPhi(dst, phis, n, p)) + [Copy(dst, phis[n].value.id)]
            else before + CopiesOfPhi(dst, phis, n, p)
  {
    var part := CopiesOfPhi(dst, phis, n, p);
    if phis[n].pred == p {
      assert (before + part) + [Copy(dst, phis[n].value.id)] == before + (part + [Copy(dst, phis[n].value.id)]);
    } else {
      assert part + [] == part;
    }
  }

  ghost predicate InRangeKeys(f: Func, m: map<nat, seq<Copy>>) {
    forall p :: p in m ==> p < |f.blocks|
  }

  /** All copies of the blocks before b, and those of b's first i instructions. */
  ghost predicate CopiesReach(f: Func, m: map<nat, seq<Copy>>, b: nat, i: nat)
    requires b < |f.blocks| && i <= |f.blocks[b].code|
  {
    && InRangeKeys(f, m)
    && forall p: nat :: CopiesAtPred(m, p) == CopiesUpTo(f.blocks, b, p) + CopiesOfCode(f.blocks[b].code, i, p)
  }

  ghost predicate AllCollected(f: Func, m: map<nat, seq<Copy>>) {
    InRangeKeys(f, m) && forall p: nat :: CopiesAtPred(m, p) == CopiesFrom(f, p)
  }

  lemma PhiPredsInRange(f: Func, b: nat, i: nat)
    requires Shaped(f) && b < |f.blocks| && i < |f.blocks[b].code| && f.blocks[b].code[i].Phi?
    ensures forall p: nat :: IsPred(f.blocks[b].code[i].phis, p) ==> p < |f.blocks|
  {
    assert BlockShaped(f, b) && InstrShaped(f, b, i);
    forall p: nat | IsPred(f.blocks[b].code[i].phis, p) ensures p < |f.blocks| {
      assert p in f.Graph().preds[b];
    }
  }

  lemma PhiReachAt(f: Func, before: seq<Copy>, now: seq<Copy>, b: nat, i: nat, p: nat)
    requires b < |f.blocks| && i < |f.blocks[b].code| && f.blocks[b].code[i].Phi?
    requires before == CopiesUpTo(f.blocks, b, p) + CopiesOfCode(f.blocks[b].code, i, p)
    requires now == before + CopiesAt(f.blocks[b].code, i, p)
    ensures now == CopiesUpTo(f.blocks, b, p) + CopiesOfCode(f.blocks[b].code, i + 1, p)
  {
    var up, part, last := CopiesUpTo(f.blocks, b, p), CopiesOfCode(f.blocks[b].code, i, p),
                                     CopiesAt(f.blocks[b].code, i, p);
    assert (up + part) + last == up + (part + last);
  }

  lemma ReachAfterPhi(f: Func, before: map<nat, seq<Copy>>, now: map<nat, seq<Copy>>, b: nat, i: nat)
    requires b < |f.blocks| && i < |f.blocks[b].code| && f.blocks[b].code[i].Phi?
    requires CopiesReach(f, before, b, i) && InRangeKeys(f, now)
    requires var ins := f.blocks[b].code[i]; Appended(now, before, ins.dst, ins.phis, |ins.phis|)
    ensures CopiesReach(f, now, b, i + 1)
  {
    var ins := f.blocks[b].code[i];
    forall p: nat
      ensures CopiesAtPred(now, p) == CopiesUpTo(f.blocks, b, p) + CopiesOfCode(f.blocks[b].code, i + 1, p)
    {
      assert AppendedFor(now, before, ins.dst, ins.phis, |ins.phis|, p);
      PhiReachAt(f, CopiesAtPred(before, p), CopiesAtPred(now, p), b, i, p);
    }
  }

  lemma ReachAfterOther(f: Func, m: map<nat, seq<Copy>>, b: nat, i: nat)
    requires b < |f.blocks| && i < |f.blocks[b].code| && !f.blocks[b].code[i].Phi? && CopiesReach(f, m, b, i)
    ensures CopiesReach(f, m, b, i + 1)
  {
    forall p: nat ensures CopiesOfCode(f.blocks[b].code, i + 1, p) == CopiesOfCode(f.blocks[b].code, i, p) {}
  }

  lemma BlockCopiesAdded(f: Func, b: nat, p: nat)
    requires b < |f.blocks|
    ensures CopiesUpTo(f.blocks, b + 1, p)
              == CopiesUpTo(f.blocks, b, p) + CopiesOfCode(f.blocks[b].code, |f.blocks[b].code|, p)
  {
  }

  lemma NoCopiesYet(code: seq<Instr>, up: seq<Copy>, p: nat)
    ensures up + CopiesOfCode(code, 0, p) == up
  {
  }

  lemma ReachNextBlock(f: Func, m: map<nat, seq<Copy>>, b: nat)
    requires b < |f.blocks| && CopiesReach(f, m, b, |f.blocks[b].code|)
    ensures if b + 1 < |f.blocks| then CopiesReach(f, m, b + 1, 0) else AllCollected(f, m)
  {
    forall p: nat ensures CopiesAtPred(m, p) == CopiesUpTo(f.blocks, b + 1, p) { BlockCopiesAdded(f, b, p); }
    if b + 1 < |f.blocks| {
      forall p: nat
        ensures CopiesAtPred(m, p) == CopiesUpTo(f.blocks, b + 1, p) + CopiesOfCode(f.blocks[b + 1].code, 0, p)
      {
        NoCopiesYet(f.blocks[b + 1].code, CopiesUpTo(f.blocks, b + 1, p), p);
      }
    }
  }

  /** Block b has been lowered, without its moves yet. */
  ghost predicate BlockTranslated(f: Func, b: nat, blk: Mir.Block)
    requires b < |f.blocks|
  {
    blk == Mir.Block(LowerCode(f.blocks[b].code, |f.blocks[b].code|), f.blocks[b].term, f.blocks[b].preds,
                     f.blocks[b].succs)
  }

  ghost predicate TailDone(f: Func, code: seq<Mir.Instr>, b: nat)
    requires b < |f.blocks|
  {
    var low := LowerCode(f.blocks[b].code, |f.blocks[b].code|);
    && |low| <= |code| && code[..|low|] == low && MovesFrom(code, |low|)
    && Performs(MovesAt(code, |low|), CopiesFrom(f, b), f.lastValueId)
  }

  ghost predicate BlockFinished(f: Func, b: nat, blk: Mir.Block)
    requires b < |f.blocks|
  {
    TailDone(f, blk.code, b) && blk == Mir.Block(blk.code, f.blocks[b].term, f.blocks[b].preds, f.blocks[b].succs)
  }

  lemma NoCopiesFinished(f: Func, b: nat, blk: Mir.Block)
    requires b < |f.blocks| && CopiesFrom(f, b) == [] && BlockTranslated(f, b, blk)
    ensures BlockFinished(f, b, blk)
  {
    assert MovesAt(blk.code, |blk.code|) == [];
  }
}
