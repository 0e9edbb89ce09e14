/** What lowering to machine IR has to produce: no phis, and copies at the end of each predecessor. */
module MirLowering {
  import opened Hir
  import opened ParallelCopy
  import Mir

  // ----- straight-line code -----

  function Id(o: Operand): Val {
    match o
    case Value(id) => id
    case VarRef(_) => 0
  }

  function Ids(os: seq<Operand>): (r: seq<Val>)
    ensures |r| == |os|
  {
    seq(|os|, k requires 0 <= k < |os| => Id(os[k]))
  }

  /** Lowering rejects logical negation. */
  predicate HasMachineForm(i: Instr) {
    !(i.Compute? && i.op == LogicalNot)
  }

  ghost predicate BlockHasMachineForm(f: Func, b: nat)
    requires b < |f.blocks|
  {
    forall i :: 0 <= i < |f.blocks[b].code| ==> HasMachineForm(f.blocks[b].code[i])
  }

  /** The function does not use logical negation. */
  ghost predicate FunctionHasMachineForm(f: Func) {
    forall b :: 0 <= b < |f.blocks| ==> BlockHasMachineForm(f, b)
  }

  /** Phis become copies elsewhere, and renaming has already carried aliases to their readers. */
  function LowerInstr(i: Instr): seq<Mir.Instr> {
    match i
    case Compute(op, dst, args, _) => if op == LogicalNot then [] else [Mir.Compute(op, dst, Ids(args))]
    case Print(a) => [Mir.Print(Id(a))]
    case Bind(_, _) => []
    case Phi(_, _, _, _) => []
  }

  function LowerCode(code: seq<Instr>, n: nat): seq<Mir.Instr>
    requires n <= |code|
  {
    if n == 0 then [] else LowerCode(code, n - 1) + LowerInstr(code[n - 1])
  }

  // ----- the copies a block owes its successors -----

  function CopiesOfPhi(dst: Val, phis: seq<Incoming>, n: nat, p: nat): seq<Copy>
    requires n <= |phis|
  {
    if n == 0 then []
    else CopiesOfPhi(dst, phis, n - 1, p) + (if phis[n - 1].pred == p then [Copy(dst, Id(phis[n - 1].value))] else [])
  }

  function CopiesOfCode(code: seq<Instr>, n: nat, p: nat): seq<Copy>
    requires n <= |code|
  {
    if n == 0 then []
    else CopiesOfCode(code, n - 1, p) + CopiesAt(code, n - 1, p)
  }

  function CopiesUpTo(blocks: seq<Block>, n: nat, p: nat): seq<Copy>
    requires n <= |blocks|
  {
    if n == 0 then [] else CopiesUpTo(blocks, n - 1, p) + CopiesOfCode(blocks[n - 1].code, |blocks[n - 1].code|, p)
  }

  /** All copies to be made at the end of block p. */
  function CopiesFrom(f: Func, p: nat): seq<Copy> {
    CopiesUpTo(f.blocks, |f.blocks|, p)
  }

  // ----- each copy comes from one phi entry -----

  /** c is what phi i of block b wants on the edge from p. */
  ghost predicate CopyOf(f: Func, b: nat, i: nat, p: nat, c: Copy) {
    && b < |f.blocks| && i < |f.blocks[b].code| && f.blocks[b].code[i].Phi? && f.blocks[b].code[i].dst == c.dst
    && HasEntry(f.blocks[b].code[i].phis, |f.blocks[b].code[i].phis|, p, c.src)
  }

  ghost predicate HasEntry(phis: seq<Incoming>, n: nat, p: nat, src: Val)
    requires n <= |phis|
  {
    exists k :: 0 <= k < n && phis[k].pred == p && Id(phis[k].value) == src
  }

  lemma {:induction false} CopiesOfPhiOrigin(dst: Val, phis: seq<Incoming>, n: nat, p: nat, c: Copy)
    requires n <= |phis|
    ensures c in CopiesOfPhi(dst, phis, n, p) <==> c.dst == dst && HasEntry(phis, n, p, c.src)
  {
    if n > 0 { CopiesOfPhiOrigin(dst, phis, n - 1, p, c); }
  }

  function CopiesAt(code: seq<Instr>, i: nat, p: nat): seq<Copy>
    requires i < |code|
  {
    match code[i]
    case Phi(dst, phis, _, _) => CopiesOfPhi(dst, phis, |phis|, p)
    case _ => []
  }

  lemma CopiesAtOrigin(f: Func, b: nat, i: nat, p: nat, c: Copy)
    requires b < |f.blocks| && i < |f.blocks[b].code|
    ensures c in CopiesAt(f.blocks[b].code, i, p) <==> CopyOf(f, b, i, p, c)
  {
    var ins := f.blocks[b].code[i];
    if ins.Phi? { CopiesOfPhiOrigin(ins.dst, ins.phis, |ins.phis|, p, c); }
  }

  lemma {:induction false} CopiesOfCodeOrigin(f: Func, b: nat, n: nat, p: nat, c: Copy)
    requires b < |f.blocks| && n <= |f.blocks[b].code|
    ensures c in CopiesOfCode(f.blocks[b].code, n, p) <==> exists i: nat :: i < n && CopyOf(f, b, i, p, c)
  {
    hide CopiesAt, CopiesOfPhi, CopyOf, HasEntry;
    if n > 0 {
      CopiesOfCodeOrigin(f, b, n - 1, p, c);
      CopiesAtOrigin(f, b, n - 1, p, c);
    }
  }

  lemma {:induction false} CopiesUpToOrigin(f: Func, n: nat, p: nat, c: Copy)
    requires n <= |f.blocks|
    ensures c in CopiesUpTo(f.blocks, n, p) <==> exists b: nat, i: nat :: b < n && CopyOf(f, b, i, p, c)
  {
    if n > 0 {
      CopiesUpToOrigin(f, n - 1, p, c);
      CopiesOfCodeOrigin(f, n - 1, |f.blocks[n - 1].code|, p, c);
      if b: nat, i: nat :| b < n && CopyOf(f, b, i, p, c) {
        if b == n - 1 { assert CopyOf(f, n - 1, i, p, c); }
      }
    }
  }

  /** Two copies for the same destination are the same copy. */
  lemma CopyUnique(f: Func, b: nat, i: nat, b': nat, i': nat, p: nat, c: Copy, c': Copy)
    requires Shaped(f) && CopyOf(f, b, i, p, c) && CopyOf(f, b', i', p, c') && c.dst == c'.dst
    ensures b == b' && i == i' && c == c'
  {
    assert Produces(f, b, i, c.dst) && Produces(f, b', i', c.dst);
    assert BlockShaped(f, b) && InstrShaped(f, b, i);
  }

  lemma DistinctAppend(a: seq<Copy>, b: seq<Copy>)
    requires DistinctDsts(a) && DistinctDsts(b)
    requires forall c, d :: c in a && d in b ==> c.dst != d.dst
    ensures DistinctDsts(a + b)
  {
  }

  lemma {:induction false} CopiesOfPhiFew(f: Func, b: nat, i: nat, n: nat, p: nat)
    requires Shaped(f) && b < |f.blocks| && i < |f.blocks[b].code| && f.blocks[b].code[i].Phi?
    requires n <= |f.blocks[b].code[i].phis|
    ensures var cs := CopiesOfPhi(f.blocks[b].code[i].dst, f.blocks[b].code[i].phis, n, p);
            |cs| <= 1 && (|cs| == 1 ==> exists k :: 0 <= k < n && f.blocks[b].code[i].phis[k].pred == p)
  {
    if n > 0 {
      CopiesOfPhiFew(f, b, i, n - 1, p);
      assert BlockShaped(f, b) && InstrShaped(f, b, i);
    }
  }

  lemma PhiCopiesApart(f: Func, b: nat, n: nat, p: nat, c: Copy, d: Copy)
    requires Shaped(f) && b < |f.blocks| && n < |f.blocks[b].code| && f.blocks[b].code[n].Phi?
    requires c in CopiesOfCode(f.blocks[b].code, n, p)
    requires d in CopiesOfPhi(f.blocks[b].code[n].dst, f.blocks[b].code[n].phis, |f.blocks[b].code[n].phis|, p)
    ensures c.dst != d.dst
  {
    CopiesOfCodeOrigin(f, b, n, p, c);
    CopiesOfPhiOrigin(f.blocks[b].code[n].dst, f.blocks[b].code[n].phis, |f.blocks[b].code[n].phis|, p, d);
    var i: nat :| i < n && CopyOf(f, b, i, p, c);
    assert Produces(f, b, i, c.dst) && Produces(f, b, n, d.dst);
  }

  lemma {:induction false} CopiesOfCodeDistinct(f: Func, b: nat, n: nat, p: nat)
    requires Shaped(f) && b < |f.blocks| && n <= |f.blocks[b].code|
    ensures DistinctDsts(CopiesOfCode(f.blocks[b].code, n, p))
  {
    if n > 0 {
      CopiesOfCodeDistinct(f, b, n - 1, p);
      var ins := f.blocks[b].code[n - 1];
      if ins.Phi? {
        var new_ := CopiesOfPhi(ins.dst, ins.phis, |ins.phis|, p);
        CopiesOfPhiFew(f, b, n - 1, |ins.phis|, p);
        forall c, d | c in CopiesOfCode(f.blocks[b].code, n - 1, p) && d in new_ ensures c.dst != d.dst {
          PhiCopiesApart(f, b, n - 1, p, c, d);
        }
        DistinctAppend(CopiesOfCode(f.blocks[b].code, n - 1, p), new_);
      }
    }
  }

  lemma {:induction false} CopiesDistinct(f: Func, n: nat, p: nat)
    requires Shaped(f) && n <= |f.blocks|
    ensures DistinctDsts(CopiesUpTo(f.blocks, n, p))
  {
    if n > 0 {
      CopiesDistinct(f, n - 1, p);
      var code := f.blocks[n - 1].code;
      CopiesOfCodeDistinct(f, n - 1, |code|, p);
      forall c, d | c in CopiesUpTo(f.blocks, n - 1, p) && d in CopiesOfCode(code, |code|, p) ensures c.dst != d.dst {
        CopiesUpToOrigin(f, n - 1, p, c);
        CopiesOfCodeOrigin(f, n - 1, |code|, p, d);
        var b: nat, i: nat :| b < n - 1 && CopyOf(f, b, i, p, c);
        var j: nat :| j < |code| && CopyOf(f, n - 1, j, p, d);
        if c.dst == d.dst { CopyUnique(f, b, i, n - 1, j, p, c, d); }
      }
      DistinctAppend(CopiesUpTo(f.blocks, n - 1, p), CopiesOfCode(code, |code|, p));
    }
  }

  lemma CopiesBelow(f: Func, p: nat, k: nat)
    requires Shaped(f) && k < |CopiesFrom(f, p)|
    ensures CopiesFrom(f, p)[k].dst < f.lastValueId && CopiesFrom(f, p)[k].src < f.lastValueId
  {
    var c := CopiesFrom(f, p)[k];
    CopiesUpToOrigin(f, |f.blocks|, p, c);
    var b: nat, i: nat :| b < |f.blocks| && CopyOf(f, b, i, p, c);
    assert BlockShaped(f, b) && InstrShaped(f, b, i);
  }

  // ----- the result -----

  /** From position n on, the block's code only moves values. */
  ghost predicate MovesFrom(code: seq<Mir.Instr>, n: nat) {
    n <= |code| && forall i :: n <= i < |code| ==> code[i].Move?
  }

  function MovesAt(code: seq<Mir.Instr>, n: nat): (r: seq<Copy>)
    requires MovesFrom(code, n)
    ensures |r| == |code| - n
  {
    seq(|code| - n, k requires 0 <= k < |code| - n => Copy(code[n + k].dst, code[n + k].src))
  }

  /** On the values of the function, the moves have the effect of all copies at once. */
  ghost predicate Performs(moves: seq<Copy>, copies: seq<Copy>, bound: nat) {
    forall regs: Mir.Regs, k: Val :: k < bound ==> Get(RunMoves(moves, |moves|, regs), k) == AtOnce(copies, regs, k)
  }

  ghost predicate BlockLowered(f: Func, m: Mir.Func, b: nat)
    requires b < |f.blocks| == |m.blocks|
  {
    var low := LowerCode(f.blocks[b].code, |f.blocks[b].code|);
    var code := m.blocks[b].code;
    && |low| <= |code| && code[..|low|] == low && MovesFrom(code, |low|)
    && Performs(MovesAt(code, |low|), CopiesFrom(f, b), f.lastValueId)
    && m.blocks[b].term == f.blocks[b].term
    && m.blocks[b].preds == f.blocks[b].preds && m.blocks[b].succs == f.blocks[b].succs
  }

  /** The values that m has in addition to f's are temporaries of its moves, each of them used. */
  ghost predicate TempsUsed(f: Func, m: Mir.Func) {
    f.lastValueId <= m.lastValueId && AllMovedTo(m.blocks, f.lastValueId, m.lastValueId)
  }

  ghost predicate AllMovedTo(blocks: seq<Mir.Block>, first: nat, bound: nat) {
    forall t: nat :: first <= t < bound ==> MovedTo(blocks, t)
  }

  ghost predicate MovedTo(blocks: seq<Mir.Block>, t: nat) {
    exists b: nat :: b < |blocks| && CodeMovesTo(blocks[b].code, t)
  }

  ghost predicate CodeMovesTo(code: seq<Mir.Instr>, t: nat) {
    exists i: nat :: MovesTo(code, i, t)
  }

  ghost predicate AllCodeFits(blocks: seq<Mir.Block>, bound: nat) {
    forall b :: 0 <= b < |blocks| ==> Mir.CodeFits(blocks[b].code, bound)
  }

  ghost predicate MovesTo(code: seq<Mir.Instr>, i: nat, t: nat) {
    i < |code| && code[i].Move? && code[i].dst == t
  }

  /** Code with moves appended fits, and the moves are in it. */
  lemma MovesAppended(low: seq<Mir.Instr>, code: seq<Mir.Instr>, moves: seq<Copy>, bound: nat, next: nat)
    requires |code| == |low| + |moves| && code[..|low|] == low && bound <= next && MovesBelow(moves, next)
    requires forall j :: |low| <= j < |code| ==> code[j] == Mir.Move(moves[j - |low|].dst, moves[j - |low|].src)
    requires TempsWritten(moves, bound, next)
    ensures Mir.CodeFits(low, bound) ==> Mir.CodeFits(code, next)
    ensures forall t: nat :: bound <= t < next ==> CodeMovesTo(code, t)
  {
    if Mir.CodeFits(low, bound) {
      forall j | 0 <= j < |code| ensures Mir.InstrFits(code[j], next) {
        if j < |low| { assert code[j] == low[j] && Mir.InstrFits(low[j], bound); }
      }
    }
    forall t: nat | bound <= t < next ensures CodeMovesTo(code, t) {
      assert Written(moves, t);
      var k :| 0 <= k < |moves| && moves[k].dst == t;
      assert MovesTo(code, |low| + k, t);
    }
  }

  /** When only block p's code is extended, all blocks fit and all temporaries so far are still used. */
  lemma BlockExtendedFits(before: seq<Mir.Block>, after: seq<Mir.Block>, p: nat, first: nat, bound: nat, next: nat)
    requires p < |before| == |after| && first <= bound <= next
    requires forall c :: 0 <= c < |after| && c != p ==> after[c] == before[c]
    requires before[p].code <= after[p].code && Mir.CodeFits(after[p].code, next)
    requires AllCodeFits(before, bound) && AllMovedTo(before, first, bound)
    requires forall t: nat :: bound <= t < next ==> CodeMovesTo(after[p].code, t)
    ensures AllCodeFits(after, next) && AllMovedTo(after, first, next)
  {
    forall c | 0 <= c < |after| ensures Mir.CodeFits(after[c].code, next) {
      if c != p {
        assert Mir.CodeFits(before[c].code, bound);
        forall j | 0 <= j < |after[c].code| ensures Mir.InstrFits(after[c].code[j], next) {
          assert Mir.InstrFits(before[c].code[j], bound);
        }
      }
    }
    forall t: nat | first <= t < next ensures MovedTo(after, t) {
      if t < bound {
        assert MovedTo(before, t);
        var b: nat :| b < |before| && CodeMovesTo(before[b].code, t);
        var i: nat :| MovesTo(before[b].code, i, t);
        assert MovesTo(after[b].code, i, t);
        assert CodeMovesTo(after[b].code, t);
      } else {
        assert CodeMovesTo(after[p].code, t);
      }
    }
  }

  /** Aliases are not lowered; what else the instruction reads are values. */
  ghost predicate ReadsValues(i: Instr) {
    i.Bind? || forall o :: o in Operands(i) ==> o.Value?
  }

  lemma LowerInstrFits(i: Instr, bound: nat)
    requires ValuesBelow(i, bound) && ReadsValues(i)
    ensures Mir.CodeFits(LowerInstr(i), bound)
  {
    if i.Compute? {
      forall k | 0 <= k < |i.args| ensures Ids(i.args)[k] < bound { assert i.args[k] in i.args; }
    }
    if i.Print? { assert i.arg in Operands(i); }
  }

  /** Lowered code fits where the code it comes from does. */
  lemma {:induction false} LowerCodeFits(code: seq<Instr>, n: nat, bound: nat)
    requires n <= |code|
    requires forall i :: 0 <= i < n ==> ValuesBelow(code[i], bound) && ReadsValues(code[i])
    ensures Mir.CodeFits(LowerCode(code, n), bound)
  {
    if n > 0 {
      LowerCodeFits(code, n - 1, bound);
      LowerInstrFits(code[n - 1], bound);
    }
  }

  ghost predicate IsLowering(f: Func, m: Mir.Func) {
    && FunctionHasMachineForm(f)
    && m.entry == f.entry && |m.blocks| == |f.blocks|
    && forall b :: 0 <= b < |f.blocks| ==> BlockLowered(f, m, b)
  }
}
