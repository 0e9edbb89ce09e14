/** Turning the parallel copies of an edge into a sequence of moves. */
module ParallelCopy {
  import opened Wrappers
  import opened Mir
  import Hir

  datatype Copy = Copy(dst: Val, src: Val)

  // ----- meaning -----

  /** The value of k after all copies happen at once. */
  function AtOnce(copies: seq<Copy>, regs: Regs, k: Val): int {
    if copies == [] then Hir.Get(regs, k)
    else if copies[0].dst == k then Hir.Get(regs, copies[0].src)
    else AtOnce(copies[1..], regs, k)
  }

  /** The registers after the first n moves, one after the other. */
  function RunMoves(moves: seq<Copy>, n: nat, regs: Regs): Regs
    requires n <= |moves|
  {
    if n == 0 then regs
    else
      var r := RunMoves(moves, n - 1, regs);
      r[moves[n - 1].dst := Hir.Get(r, moves[n - 1].src)]
  }

  ghost predicate DistinctDsts(copies: seq<Copy>) {
    forall i, j :: 0 <= i < j < |copies| ==> copies[i].dst != copies[j].dst
  }

  lemma {:induction false} AtOnceHit(copies: seq<Copy>, regs: Regs, i: nat)
    requires i < |copies| && DistinctDsts(copies)
    ensures AtOnce(copies, regs, copies[i].dst) == Hir.Get(regs, copies[i].src)
  {
    if i > 0 { AtOnceHit(copies[1..], regs, i - 1); }
  }

  lemma AtOnceMember(copies: seq<Copy>, regs: Regs, c: Copy)
    requires c in copies && DistinctDsts(copies)
    ensures AtOnce(copies, regs, c.dst) == Hir.Get(regs, c.src)
  {
    var i :| 0 <= i < |copies| && copies[i] == c;
    AtOnceHit(copies, regs, i);
  }

  lemma {:induction false} AtOnceMiss(copies: seq<Copy>, regs: Regs, k: Val)
    requires forall i :: 0 <= i < |copies| ==> copies[i].dst != k
    ensures AtOnce(copies, regs, k) == Hir.Get(regs, k)
  {
    if copies != [] { AtOnceMiss(copies[1..], regs, k); }
  }

  // ----- one safe copy -----

  /** No other pending copy still needs the old value of copy i's destination. */
  ghost predicate Safe(copies: seq<Copy>, i: nat)
    requires i < |copies|
  {
    forall j :: 0 <= j < |copies| && j != i ==> copies[j].src != copies[i].dst
  }

  function Without(copies: seq<Copy>, i: nat): (r: seq<Copy>)
    requires i < |copies|
    ensures |r| == |copies| - 1
    ensures forall j :: 0 <= j < |r| ==> r[j] == copies[if j < i then j else j + 1]
  {
    copies[..i] + copies[i + 1..]
  }

  lemma SafeStep(copies: seq<Copy>, i: nat, regs: Regs, k: Val)
    requires i < |copies| && DistinctDsts(copies) && Safe(copies, i)
    ensures AtOnce(Without(copies, i), regs[copies[i].dst := Hir.Get(regs, copies[i].src)], k)
              == AtOnce(copies, regs, k)
  {
    var rest := Without(copies, i);
    var after := regs[copies[i].dst := Hir.Get(regs, copies[i].src)];
    if m :| 0 <= m < |rest| && rest[m].dst == k {
      AtOnceHit(rest, after, m);
      AtOnceHit(copies, regs, if m < i then m else m + 1);
    } else {
      AtOnceMiss(rest, after, k);
      if k == copies[i].dst {
        AtOnceHit(copies, regs, i);
      } else {
        forall j | 0 <= j < |copies| ensures copies[j].dst != k {
          if j != i { assert rest[if j < i then j else j - 1] == copies[j]; }
        }
        AtOnceMiss(copies, regs, k);
      }
    }
  }

  // ----- no safe copy: a permutation -----

  ghost predicate Stuck(copies: seq<Copy>) {
    forall i :: 0 <= i < |copies| ==> !Safe(copies, i)
  }

  function Dsts(copies: seq<Copy>): (s: set<Val>)
    ensures forall k :: k in s <==> exists i :: 0 <= i < |copies| && copies[i].dst == k
  {
    set i | 0 <= i < |copies| :: copies[i].dst
  }

  function Srcs(copies: seq<Copy>): (s: set<Val>)
    ensures forall k :: k in s <==> exists i :: 0 <= i < |copies| && copies[i].src == k
  {
    set i | 0 <= i < |copies| :: copies[i].src
  }

  lemma {:induction false} DstsSize(copies: seq<Copy>)
    requires DistinctDsts(copies)
    ensures |Dsts(copies)| == |copies|
  {
    if copies != [] {
      DstsSize(copies[1..]);
      assert Dsts(copies) == Dsts(copies[1..]) + {copies[0].dst};
      assert copies[0].dst !in Dsts(copies[1..]);
    }
  }

  lemma {:induction false} SrcsSize(copies: seq<Copy>)
    ensures |Srcs(copies)| <= |copies|
    ensures |Srcs(copies)| == |copies| ==> forall i, j :: 0 <= i < j < |copies| ==> copies[i].src != copies[j].src
  {
    if copies != [] {
      SrcsSize(copies[1..]);
      assert Srcs(copies) == Srcs(copies[1..]) + {copies[0].src};
      if |Srcs(copies)| == |copies| {
        assert copies[0].src !in Srcs(copies[1..]);
        forall i, j | 0 <= i < j < |copies| ensures copies[i].src != copies[j].src {
          assert copies[j] == copies[1..][j - 1];
          if i > 0 { assert copies[i] == copies[1..][i - 1]; }
        }
      }
    }
  }

  lemma StuckCovered(copies: seq<Copy>)
    requires Stuck(copies)
    ensures Dsts(copies) <= Srcs(copies)
  {
    forall k | k in Dsts(copies) ensures k in Srcs(copies) {
      var i :| 0 <= i < |copies| && copies[i].dst == k;
      assert !Safe(copies, i);
    }
  }

  lemma NoFixedPoint(copies: seq<Copy>, i: nat)
    requires i < |copies| && !Safe(copies, i)
    requires forall i, j :: 0 <= i < j < |copies| ==> copies[i].src != copies[j].src
    ensures copies[i].src != copies[i].dst
  {
    var j :| 0 <= j < |copies| && j != i && copies[j].src == copies[i].dst;
    if i < j {
      assert copies[i].src != copies[j].src;
    } else {
      assert copies[j].src != copies[i].src;
    }
  }

  /** When no copy is safe the sources are the destinations, each once, and no copy is its own source. */
  lemma StuckIsPermutation(copies: seq<Copy>)
    requires DistinctDsts(copies) && Stuck(copies)
    ensures Srcs(copies) == Dsts(copies)
    ensures forall i, j :: 0 <= i < j < |copies| ==> copies[i].src != copies[j].src
    ensures forall i :: 0 <= i < |copies| ==> copies[i].src != copies[i].dst
  {
    StuckCovered(copies);
    DstsSize(copies);
    SrcsSize(copies);
    SubsetSize(Dsts(copies), Srcs(copies));
    forall i | 0 <= i < |copies| ensures copies[i].src != copies[i].dst {
      NoFixedPoint(copies, i);
    }
  }

  // ----- breaking a cycle -----

  /** Copy 0 reads a temporary that holds its source. */
  function Redirected(copies: seq<Copy>, temp: Val): seq<Copy>
    requires copies != []
  {
    copies[0 := Copy(copies[0].dst, temp)]
  }

  lemma RedirectStep(copies: seq<Copy>, temp: Val, regs: Regs, k: Val)
    requires copies != [] && DistinctDsts(copies) && k != temp
    requires temp !in Srcs(copies)
    ensures AtOnce(Redirected(copies, temp), regs[temp := Hir.Get(regs, copies[0].src)], k) == AtOnce(copies, regs, k)
  {
    var after := regs[temp := Hir.Get(regs, copies[0].src)];
    var red := Redirected(copies, temp);
    if m :| 0 <= m < |copies| && copies[m].dst == k {
      AtOnceHit(red, after, m);
      AtOnceHit(copies, regs, m);
    } else {
      AtOnceMiss(red, after, k);
      AtOnceMiss(copies, regs, k);
    }
  }

  /** Redirecting copy 0 of a stuck list frees the copy that overwrites its source. */
  lemma RedirectFrees(copies: seq<Copy>, temp: Val) returns (j: nat)
    requires copies != [] && DistinctDsts(copies) && Stuck(copies) && temp !in Dsts(copies)
    ensures j < |copies| && copies[j].dst == copies[0].src
    ensures Safe(Redirected(copies, temp), j)
  {
    StuckIsPermutation(copies);
    assert copies[0].src in Srcs(copies);
    j :| 0 <= j < |copies| && copies[j].dst == copies[0].src;
    forall m | 0 <= m < |copies| && m != j ensures Redirected(copies, temp)[m].src != copies[j].dst {
      if m > 0 { assert copies[0].src != copies[m].src; }
    }
  }

  // ----- draining -----

  /** Copy i reads a temporary. */
  ghost predicate Pending(copies: seq<Copy>, base: nat, i: nat) {
    i < |copies| && copies[i].src >= base
  }

  /** Two copies are drained for each temporary: a pending temporary has one copy to its credit as soon as
      nothing waits for its destination. */
  ghost predicate Credit(copies: seq<Copy>, base: nat, temps: nat, drained: nat) {
    && ((forall m: nat :: !Pending(copies, base, m)) ==> 2 * temps <= drained)
    && (forall m: nat, k: nat :: Pending(copies, base, m) && Pending(copies, base, k) ==> m == k)
    && (forall m: nat :: Pending(copies, base, m) ==>
          2 * temps <= drained + 2 && (Safe(copies, m) ==> 2 * temps <= drained + 1))
  }

  lemma CreditAfterSafe(copies: seq<Copy>, base: nat, temps: nat, drained: nat, i: nat)
    requires i < |copies| && Safe(copies, i) && Credit(copies, base, temps, drained)
    ensures Credit(Without(copies, i), base, temps, drained + 1)
  {
    var rest := Without(copies, i);
    forall m: nat | Pending(rest, base, m)
      ensures Pending(copies, base, if m < i then m else m + 1)
    {
    }
    if forall m: nat :: !Pending(rest, base, m) {
      if m: nat :| Pending(copies, base, m) {
        if m != i {
          assert rest[if m < i then m else m - 1] == copies[m];
          assert Pending(rest, base, if m < i then m else m - 1);
        }
      }
    }
  }

  /** A cycle is drained completely before another is broken: in a stuck list nothing reads a temporary. */
  lemma NoneLeftPending(copies: seq<Copy>, base: nat)
    requires DistinctDsts(copies) && Stuck(copies)
    requires forall i :: 0 <= i < |copies| ==> copies[i].dst < base
    ensures forall m: nat :: !Pending(copies, base, m)
  {
    StuckIsPermutation(copies);
    forall m: nat ensures !Pending(copies, base, m) {
      if m < |copies| { assert copies[m].src in Srcs(copies); }
    }
  }

  lemma CreditAfterRedirect(copies: seq<Copy>, base: nat, temps: nat, drained: nat, temp: Val)
    requires copies != [] && DistinctDsts(copies) && Stuck(copies) && temp >= base
    requires forall i :: 0 <= i < |copies| ==> copies[i].dst < base
    requires Credit(copies, base, temps, drained)
    ensures Credit(Redirected(copies, temp), base, temps + 1, drained)
    ensures Pending(Redirected(copies, temp), base, 0)
  {
    NoneLeftPending(copies, base);
    var red := Redirected(copies, temp);
    assert !Safe(copies, 0);
    var j :| 0 < j < |copies| && copies[j].src == copies[0].dst;
    assert red[j].src == red[0].dst;
    assert !Safe(red, 0);
    assert Pending(red, base, 0);
    forall m: nat | m > 0 ensures !Pending(red, base, m) {
      assert !Pending(copies, base, m);
    }
  }

  /** The first copy that can be emitted now, if there is one. */
  method FirstSafe(copies: seq<Copy>) returns (r: Option<nat>)
    ensures r.Some? ==> r.value < |copies| && Safe(copies, r.value) && forall m :: 0 <= m < r.value ==> !Safe(copies, m)
    ensures r.None? ==> Stuck(copies)
  {
    var i := 0;
    while i < |copies|
      invariant i <= |copies| && forall m :: 0 <= m < i ==> !Safe(copies, m)
    {
      var isThisCopySafe := true;
      var j := 0;
      while j < |copies|
        invariant j <= |copies| && isThisCopySafe
        invariant forall m :: 0 <= m < j && m != i ==> copies[m].src != copies[i].dst
      {
        if i != j && copies[i].dst == copies[j].src {
          isThisCopySafe := false;
          break;
        }
        j := j + 1;
      }
      if isThisCopySafe {
        return Some(i);
      }
      i := i + 1;
    }
    return None;
  }

  /** Every pending copy that reads the source of the first one now reads the temporary. The list is
      rewritten while that source is looked up in it, so once the first entry has changed nothing else
      matches. */
  method RedirectSources(pending: seq<Copy>, temp: Val) returns (copies: seq<Copy>)
    requires pending != [] && temp !in Srcs(pending)
    ensures copies == Redirected(pending, temp)
  {
    copies := pending;
    var j := 0;
    while j < |copies|
      invariant j <= |copies|
      invariant copies == if j == 0 then pending else Redirected(pending, temp)
    {
      if copies[j].src == copies[0].src {
        copies := copies[j := copies[j].(src := temp)];
      }
      j := j + 1;
    }
  }

  /** Whatever is pending, done at once after the moves, gives what the original copies give at once. */
  ghost predicate SoFar(originalCopies: seq<Copy>, copies: seq<Copy>, moves: seq<Copy>, lastValueId: nat,
                        nextValueId: nat) {
    forall regs: Regs, k: Val :: !(lastValueId <= k < nextValueId)
      ==> AtOnce(copies, RunMoves(moves, |moves|, regs), k) == AtOnce(originalCopies, regs, k)
  }

  lemma SafeKeeps(originalCopies: seq<Copy>, copies: seq<Copy>, moves: seq<Copy>, lastValueId: nat, nextValueId: nat,
                  i: nat)
    requires SoFar(originalCopies, copies, moves, lastValueId, nextValueId)
    requires DistinctDsts(copies) && i < |copies| && Safe(copies, i)
    ensures SoFar(originalCopies, Without(copies, i), moves + [copies[i]], lastValueId, nextValueId)
  {
    var more := moves + [copies[i]];
    forall regs: Regs, k: Val | !(lastValueId <= k < nextValueId)
      ensures AtOnce(Without(copies, i), RunMoves(more, |more|, regs), k) == AtOnce(originalCopies, regs, k)
    {
      MovesAppend(moves, copies[i], regs);
      SafeStep(copies, i, RunMoves(moves, |moves|, regs), k);
    }
  }

  lemma RedirectKeeps(originalCopies: seq<Copy>, copies: seq<Copy>, moves: seq<Copy>, lastValueId: nat, temp: nat)
    requires SoFar(originalCopies, copies, moves, lastValueId, temp) && lastValueId <= temp && copies != []
    requires DistinctDsts(copies) && temp !in Srcs(copies)
    ensures SoFar(originalCopies, Redirected(copies, temp), moves + [Copy(temp, copies[0].src)], lastValueId, temp + 1)
  {
    var more := moves + [Copy(temp, copies[0].src)];
    forall regs: Regs, k: Val | !(lastValueId <= k < temp + 1)
      ensures AtOnce(Redirected(copies, temp), RunMoves(more, |more|, regs), k) == AtOnce(originalCopies, regs, k)
    {
      MovesAppend(moves, Copy(temp, copies[0].src), regs);
      RedirectStep(copies, temp, RunMoves(moves, |moves|, regs), k);
    }
  }

  /** The moves read and write values below a bound. */
  ghost predicate MovesBelow(moves: seq<Copy>, bound: nat) {
    forall i :: 0 <= i < |moves| ==> moves[i].dst < bound && moves[i].src < bound
  }

  /** Each value from `first` up to the bound is written by a move. */
  ghost predicate TempsWritten(moves: seq<Copy>, first: nat, bound: nat) {
    forall t: nat :: first <= t < bound ==> Written(moves, t)
  }

  ghost predicate Written(moves: seq<Copy>, t: nat) {
    exists i :: 0 <= i < |moves| && moves[i].dst == t
  }

  lemma NoMoves(bound: nat)
    ensures MovesBelow([], bound) && TempsWritten([], bound, bound)
  {
  }

  lemma OneMoreMove(moves: seq<Copy>, c: Copy, first: nat, bound: nat, next: nat)
    requires MovesBelow(moves, bound) && TempsWritten(moves, first, bound)
    requires next == bound || (next == bound + 1 && c.dst == bound)
    requires c.dst < next && c.src < next
    ensures MovesBelow(moves + [c], next) && TempsWritten(moves + [c], first, next)
  {
    var more := moves + [c];
    forall t: nat | first <= t < next ensures Written(more, t) {
      if t < bound {
        assert Written(moves, t);
        var i :| 0 <= i < |moves| && moves[i].dst == t;
        assert more[i].dst == t;
      } else {
        assert more[|moves|].dst == t;
      }
    }
  }

  /** The moves emitted have the effect of all copies at once, temporaries aside; n copies need at most
      n + n/2 moves. Every temporary is used, and nothing outside the values and temporaries is. */
  method Drain(originalCopies: seq<Copy>, lastValueId: nat) returns (moves: seq<Copy>, nextValueId: nat)
    requires DistinctDsts(originalCopies)
    requires forall i :: 0 <= i < |originalCopies|
               ==> originalCopies[i].dst < lastValueId && originalCopies[i].src < lastValueId
    ensures lastValueId <= nextValueId
    ensures forall regs: Regs, k: Val :: !(lastValueId <= k < nextValueId)
              ==> Hir.Get(RunMoves(moves, |moves|, regs), k) == AtOnce(originalCopies, regs, k)
    ensures |moves| == |originalCopies| + (nextValueId - lastValueId)
    ensures |moves| <= |originalCopies| + |originalCopies| / 2
    ensures MovesBelow(moves, nextValueId) && TempsWritten(moves, lastValueId, nextValueId)
  {
    hide MovesBelow, TempsWritten;
    NoMoves(lastValueId);
    var copies := originalCopies;
    moves, nextValueId := [], lastValueId;
    while copies != []
      invariant lastValueId <= nextValueId && |copies| <= |originalCopies|
      invariant DistinctDsts(copies)
      invariant forall i :: 0 <= i < |copies| ==> copies[i].dst < lastValueId && copies[i].src < nextValueId
      invariant SoFar(originalCopies, copies, moves, lastValueId, nextValueId)
      invariant |moves| == |originalCopies| - |copies| + (nextValueId - lastValueId)
      invariant MovesBelow(moves, nextValueId) && TempsWritten(moves, lastValueId, nextValueId)
      invariant Credit(copies, lastValueId, nextValueId - lastValueId, |originalCopies| - |copies|)
      decreases |copies|, if exists m: nat :: Pending(copies, lastValueId, m) then 0 else 1
    {
      var safe := FirstSafe(copies);
      ghost var old_ := copies;
      ghost var oldMoves := moves;
      match safe {
        case Some(i) =>
          OneMoreMove(moves, copies[i], lastValueId, nextValueId, nextValueId);
          moves := moves + [copies[i]];
          CreditAfterSafe(copies, lastValueId, nextValueId - lastValueId, |originalCopies| - |copies|, i);
          copies := Without(copies, i);
          SafeKeeps(originalCopies, old_, oldMoves, lastValueId, nextValueId, i);
        case None =>
          var temp := nextValueId;
          nextValueId := nextValueId + 1;
          OneMoreMove(moves, Copy(temp, copies[0].src), lastValueId, temp, nextValueId);
          moves := moves + [Copy(temp, copies[0].src)];
          NoneLeftPending(copies, lastValueId);
          CreditAfterRedirect(copies, lastValueId, temp - lastValueId, |originalCopies| - |copies|, temp);
          copies := RedirectSources(copies, temp);
          RedirectKeeps(originalCopies, old_, oldMoves, lastValueId, temp);
      }
    }
  }

  lemma MovesAppend(moves: seq<Copy>, c: Copy, regs: Regs)
    ensures var r := RunMoves(moves, |moves|, regs);
            RunMoves(moves + [c], |moves| + 1, regs) == r[c.dst := Hir.Get(r, c.src)]
  {
    MovesPrefix(moves, moves + [c], |moves|, regs);
  }

  lemma {:induction false} MovesPrefix(a: seq<Copy>, b: seq<Copy>, n: nat, regs: Regs)
    requires n <= |a| <= |b| && a == b[..|a|]
    ensures RunMoves(a, n, regs) == RunMoves(b, n, regs)
  {
    if n > 0 { MovesPrefix(a, b, n - 1, regs); }
  }
}
