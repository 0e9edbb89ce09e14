/** What lowering keeps true of the graph it builds: edges mirror each other, every block that has been
    started can be reached, and every value and variable is there when it is read. */
module LoweringShape {
  import opened Wrappers
  import opened Hir
  import opened Lowering
  import opened LoweringGrowth

  /** Facts about the graph under construction: `above[b]` are blocks every path to b goes through, `way[b]` is
      one path to b, and `decl[v]` is the block that declares v. */
  datatype Layout = Layout(above: seq<set<nat>>, way: seq<seq<nat>>, decl: map<Var, nat>)

  predicate Started(st: Builder, b: nat) {
    b < |st.blocks| && (b == st.cur || st.blocks[b].term.Some?)
  }

  function Succs(t: Option<Term>): seq<nat> {
    match t case None => [] case Some(x) => Targets(x)
  }

  // ----- the rules -----

  ghost predicate EdgesAt(st: Builder, b: nat)
    requires b < |st.blocks|
  {
    var d := st.blocks[b];
    && d.succs == Succs(d.term) && Distinct(d.succs) && Distinct(d.preds)
    && (forall s :: s in d.succs ==> s < |st.blocks| && b in st.blocks[s].preds)
    && (forall p :: p in d.preds ==> p < |st.blocks| && b in st.blocks[p].succs)
    && (b == 0 ==> d.preds == [])
  }

  ghost predicate PendingAt(st: Builder, b: nat)
    requires b < |st.blocks|
  {
    !Started(st, b) ==> st.blocks[b].code == [] && st.blocks[b].defs == []
  }

  ghost predicate AboveAt(st: Builder, l: Layout, b: nat)
    requires b < |st.blocks| == |l.above|
  {
    && b in l.above[b] && (b == 0 ==> l.above[b] == {0})
    && forall p :: p in st.blocks[b].preds ==> p < |l.above| && l.above[b] <= l.above[p] + {b}
  }

  ghost predicate IsWay(st: Builder, w: seq<nat>, b: nat) {
    && |w| > 0 && w[0] == 0 && w[|w| - 1] == b
    && (forall i :: 0 <= i < |w| ==> Started(st, w[i]))
    && (forall i :: 0 < i < |w| ==> w[i - 1] in st.blocks[w[i]].preds)
  }

  ghost predicate WayAt(st: Builder, l: Layout, b: nat)
    requires b < |st.blocks| == |l.way|
  {
    && (Started(st, b) ==> IsWay(st, l.way[b], b))
    && (st.blocks[b].term.Some? && st.blocks[b].term.value.Branch?
        ==> forall x :: x in Targets(st.blocks[b].term.value) ==> x !in l.way[b])
  }

  /** v has a value before instruction i of block b. */
  ghost predicate VisibleAt(st: Builder, l: Layout, v: Var, b: nat, i: nat) {
    && v in l.decl && b < |st.blocks| && b < |l.above|
    && ((l.decl[v] != b && l.decl[v] in l.above[b]) || DefinedBefore(st.blocks[b].code, v, i))
  }

  ghost predicate DefinedBefore(code: seq<Instr>, v: Var, i: nat) {
    exists j :: 0 <= j < i && j < |code| && Defined(code[j]) == Some(v)
  }

  ghost predicate Makes(st: Builder, c: nat, j: nat, d: Val) {
    c < |st.blocks| && j < |st.blocks[c].code| && Dst(st.blocks[c].code[j]) == Some(d)
  }

  /** Value d has been produced before instruction i of block b. */
  ghost predicate MadeAt(st: Builder, l: Layout, d: Val, b: nat, i: nat) {
    b < |l.above| && exists c: nat, j: nat :: Makes(st, c, j, d) && ((c == b && j < i) || (c != b && c in l.above[b]))
  }

  ghost predicate OperandAt(st: Builder, l: Layout, o: Operand, b: nat, i: nat) {
    match o
    case VarRef(v) => VisibleAt(st, l, v, b, i)
    case Value(d) => d < st.nextId && MadeAt(st, l, d, b, i)
  }

  ghost predicate EntryAt(st: Builder, l: Layout, e: Incoming) {
    e.pred < |st.blocks| && OperandAt(st, l, e.value, e.pred, |st.blocks[e.pred].code|)
  }

  ghost predicate InstrAt(st: Builder, l: Layout, b: nat, i: nat)
    requires b < |st.blocks| && i < |st.blocks[b].code|
  {
    var ins := st.blocks[b].code[i];
    && (forall o :: o in Operands(ins) ==> OperandAt(st, l, o, b, i))
    && (ins.Phi? ==>
          && i == 0 && ins.phiVar == None && |ins.phis| == |st.blocks[b].preds|
          && forall k :: 0 <= k < |ins.phis|
               ==> ins.phis[k].pred == st.blocks[b].preds[k] && EntryAt(st, l, ins.phis[k]))
  }

  ghost predicate TermAt(st: Builder, l: Layout, b: nat)
    requires b < |st.blocks|
  {
    st.blocks[b].term.Some? ==>
      forall o :: o in TermOperands(st.blocks[b].term.value) ==> OperandAt(st, l, o, b, |st.blocks[b].code|)
  }

  ghost predicate DefsAt(st: Builder, l: Layout, b: nat)
    requires b < |st.blocks| == |l.above|
  {
    && (forall v :: v in st.blocks[b].defs <==> Defines(st.blocks[b].code, v))
    && (forall v :: v in st.blocks[b].defs ==> v in l.decl && l.decl[v] in l.above[b])
  }

  ghost predicate TargetAt(st: Builder, l: Layout, t: nat) {
    && 0 < t < |st.blocks| && t < |l.above| && PhiFree(st.blocks[t].code, 0)
    && st.cur < |l.above| && l.above[t] <= l.above[st.cur] + {t}
  }

  datatype Rule =
    | Sized | Mirrored | PendingEmpty | AboveKept | WaysExist | InstrsRead
    | TermsRead | MadeOnce | DefsMatch | Declared | LoopsOpen

  ghost predicate Holds(r: Rule, st: Builder, l: Layout) {
    match r
    case Sized => st.cur < |st.blocks| == |l.above| == |l.way|
    case Mirrored => forall b: nat :: b < |st.blocks| ==> EdgesAt(st, b)
    case PendingEmpty => forall b: nat :: b < |st.blocks| ==> PendingAt(st, b)
    case AboveKept => |st.blocks| == |l.above| && forall b: nat :: b < |st.blocks| ==> AboveAt(st, l, b)
    case WaysExist => |st.blocks| == |l.way| && forall b: nat :: b < |st.blocks| ==> WayAt(st, l, b)
    case InstrsRead => forall b: nat, i: nat :: b < |st.blocks| && i < |st.blocks[b].code| ==> InstrAt(st, l, b, i)
    case TermsRead => forall b: nat :: b < |st.blocks| ==> TermAt(st, l, b)
    case MadeOnce =>
      && (forall c: nat, j: nat, d: nat :: Makes(st, c, j, d) ==> d < st.nextId)
      && (forall c: nat, j: nat, c1: nat, j1: nat, d: nat ::
            Makes(st, c, j, d) && Makes(st, c1, j1, d) ==> c == c1 && j == j1)
    case DefsMatch => |st.blocks| == |l.above| && forall b: nat :: b < |st.blocks| ==> DefsAt(st, l, b)
    case Declared => forall v :: v in l.decl ==> l.decl[v] < |st.blocks| && v in st.blocks[l.decl[v]].defs
    case LoopsOpen =>
      forall i :: 0 <= i < |st.loops| ==>
        TargetAt(st, l, st.loops[i].continueTarget) && TargetAt(st, l, st.loops[i].breakTarget)
  }

  /** All the rules. */
  ghost predicate Sound(st: Builder, l: Layout) {
    forall r: Rule :: Holds(r, st, l)
  }

  lemma AllHold(st: Builder, l: Layout)
    requires Holds(Sized, st, l) && Holds(Mirrored, st, l) && Holds(PendingEmpty, st, l) && Holds(AboveKept, st, l)
    requires Holds(WaysExist, st, l) && Holds(InstrsRead, st, l) && Holds(TermsRead, st, l) && Holds(MadeOnce, st, l)
    requires Holds(DefsMatch, st, l) && Holds(Declared, st, l) && Holds(LoopsOpen, st, l)
    ensures Sound(st, l)
  {
    forall r: Rule ensures Holds(r, st, l) { }
  }

  // ----- later states -----

  /** Instructions stay as they are, but for a variable one may come to define. */
  ghost predicate InstrLater(i: Instr, j: Instr) {
    && Dst(j) == Dst(i) && Operands(j) == Operands(i) && (Defined(i).Some? ==> Defined(j) == Defined(i))
    && (j.Phi? <==> i.Phi?) && (i.Phi? ==> j.phis == i.phis && j.phiVar == i.phiVar)
  }

  ghost predicate CodeLater(x: seq<Instr>, y: seq<Instr>) {
    |x| <= |y| && forall j :: 0 <= j < |x| ==> InstrLater(x[j], y[j])
  }

  ghost predicate BlockLater(st: Builder, l: Layout, st2: Builder, l2: Layout, b: nat) {
    && b < |st.blocks| && b < |st2.blocks| && b < |l.above| && b < |l2.above|
    && l2.above[b] == l.above[b] && CodeLater(st.blocks[b].code, st2.blocks[b].code)
  }

  /** st2 has come from st by adding blocks, instructions and declarations. */
  ghost predicate Later(st: Builder, l: Layout, st2: Builder, l2: Layout) {
    && |st.blocks| <= |st2.blocks| && st.nextId <= st2.nextId
    && (forall b: nat :: b < |st.blocks| ==> BlockLater(st, l, st2, l2, b))
    && (forall v :: v in l.decl ==> v in l2.decl && l2.decl[v] == l.decl[v])
  }

  lemma LaterRefl(st: Builder, l: Layout)
    requires |st.blocks| == |l.above|
    ensures Later(st, l, st, l)
  {
  }

  lemma LaterTrans(a: Builder, la: Layout, b: Builder, lb: Layout, c: Builder, lc: Layout)
    requires Later(a, la, b, lb) && Later(b, lb, c, lc)
    ensures Later(a, la, c, lc)
  {
    forall i: nat | i < |a.blocks| ensures BlockLater(a, la, c, lc, i) {
      assert BlockLater(a, la, b, lb, i) && BlockLater(b, lb, c, lc, i);
    }
  }

  lemma DefinedStays(x: seq<Instr>, y: seq<Instr>, v: Var, i: nat, i2: nat)
    requires CodeLater(x, y) && i <= i2 && DefinedBefore(x, v, i)
    ensures DefinedBefore(y, v, i2)
  {
    var j :| 0 <= j < i && j < |x| && Defined(x[j]) == Some(v);
    assert InstrLater(x[j], y[j]);
  }

  /** What an operand needs stays true at the same place, or at a later one. */
  lemma OperandStays(st: Builder, l: Layout, st2: Builder, l2: Layout, o: Operand, b: nat, i: nat, i2: nat)
    requires Later(st, l, st2, l2) && OperandAt(st, l, o, b, i) && b < |st.blocks| && i <= i2
    ensures OperandAt(st2, l2, o, b, i2)
  {
    assert BlockLater(st, l, st2, l2, b);
    match o
    case VarRef(v) =>
      if l.decl[v] == b || l.decl[v] !in l.above[b] { DefinedStays(st.blocks[b].code, st2.blocks[b].code, v, i, i2); }
    case Value(d) =>
      var c: nat, j: nat :| Makes(st, c, j, d) && ((c == b && j < i) || (c != b && c in l.above[b]));
      assert BlockLater(st, l, st2, l2, c);
      assert InstrLater(st.blocks[c].code[j], st2.blocks[c].code[j]);
      assert Makes(st2, c, j, d);
  }

  /** And at the start of a block below, which held nothing before. */
  lemma OperandCarries(st: Builder, l: Layout, st2: Builder, l2: Layout, o: Operand, b: nat, i: nat, b2: nat, i2: nat)
    requires Sound(st, l) && Later(st, l, st2, l2) && OperandAt(st, l, o, b, i) && b < |st.blocks|
    requires b2 != b && b2 < |l2.above| == |st2.blocks| && l.above[b] <= l2.above[b2]
    requires b2 < |st.blocks| ==> st.blocks[b2].code == [] && st.blocks[b2].defs == []
    ensures OperandAt(st2, l2, o, b2, i2)
  {
    assert Holds(AboveKept, st, l) && Holds(DefsMatch, st, l) && Holds(Declared, st, l);
    assert AboveAt(st, l, b) && DefsAt(st, l, b);
    match o
    case VarRef(v) =>
      assert l.decl[v] != b2;
      if l.decl[v] == b || l.decl[v] !in l.above[b] {
        assert Defines(st.blocks[b].code, v);
      }
    case Value(d) =>
      var c: nat, j: nat :| Makes(st, c, j, d) && ((c == b && j < i) || (c != b && c in l.above[b]));
      assert BlockLater(st, l, st2, l2, c);
      assert InstrLater(st.blocks[c].code[j], st2.blocks[c].code[j]);
      assert Makes(st2, c, j, d);
  }

  // ----- what a step leaves alone -----

  lemma InstrStays(st: Builder, l: Layout, st2: Builder, l2: Layout, b: nat, i: nat)
    requires Later(st, l, st2, l2) && b < |st.blocks| && i < |st.blocks[b].code| && i < |st2.blocks[b].code|
    requires InstrAt(st, l, b, i)
    requires st.blocks[b].code[i].Phi? ==> st2.blocks[b].preds == st.blocks[b].preds
    ensures InstrAt(st2, l2, b, i)
  {
    assert BlockLater(st, l, st2, l2, b);
    var x := st.blocks[b].code[i];
    assert InstrLater(x, st2.blocks[b].code[i]);
    forall o | o in Operands(x) ensures OperandAt(st2, l2, o, b, i) { OperandStays(st, l, st2, l2, o, b, i, i); }
    if x.Phi? {
      forall k: nat | k < |x.phis| ensures EntryAt(st2, l2, x.phis[k]) { EntryStays(st, l, st2, l2, x.phis[k]); }
    }
  }

  lemma EntryStays(st: Builder, l: Layout, st2: Builder, l2: Layout, e: Incoming)
    requires Later(st, l, st2, l2) && EntryAt(st, l, e)
    ensures EntryAt(st2, l2, e)
  {
    assert BlockLater(st, l, st2, l2, e.pred);
    OperandStays(st, l, st2, l2, e.value, e.pred, |st.blocks[e.pred].code|, |st2.blocks[e.pred].code|);
  }

  lemma TermStays(st: Builder, l: Layout, st2: Builder, l2: Layout, b: nat)
    requires Later(st, l, st2, l2) && b < |st.blocks| && TermAt(st, l, b) && st2.blocks[b].term == st.blocks[b].term
    ensures TermAt(st2, l2, b)
  {
    assert BlockLater(st, l, st2, l2, b);
    if st.blocks[b].term.Some? {
      forall o | o in TermOperands(st.blocks[b].term.value) ensures OperandAt(st2, l2, o, b, |st2.blocks[b].code|) {
        OperandStays(st, l, st2, l2, o, b, |st.blocks[b].code|, |st2.blocks[b].code|);
      }
    }
  }

  /** A step that emits into the current block: nothing about edges changes. */
  ghost predicate SameEdges(st: Builder, st2: Builder) {
    && |st2.blocks| == |st.blocks| && st2.cur == st.cur && st2.loops == st.loops
    && forall b: nat :: b < |st.blocks| ==> SameEdgesAt(st, st2, b)
  }

  ghost predicate SameEdgesAt(st: Builder, st2: Builder, b: nat) {
    && b < |st.blocks| && b < |st2.blocks| && st2.blocks[b].preds == st.blocks[b].preds
    && st2.blocks[b].succs == st.blocks[b].succs && st2.blocks[b].term == st.blocks[b].term
  }

  lemma EdgesStay(st: Builder, l: Layout, st2: Builder, l2: Layout)
    requires Sound(st, l) && SameEdges(st, st2) && l2.above == l.above && l2.way == l.way
    ensures Holds(Sized, st2, l2) && Holds(Mirrored, st2, l2) && Holds(AboveKept, st2, l2) && Holds(WaysExist, st2, l2)
  {
    assert Holds(Sized, st, l) && Holds(Mirrored, st, l) && Holds(AboveKept, st, l) && Holds(WaysExist, st, l);
    assert forall b: nat :: b < |st.blocks| ==> SameEdgesAt(st, st2, b);
    forall b: nat | b < |st.blocks| ensures EdgesAt(st2, b) {
      assert SameEdgesAt(st, st2, b) && EdgesAt(st, b);
      forall s | s in st.blocks[b].succs ensures b in st2.blocks[s].preds { assert SameEdgesAt(st, st2, s); }
      forall p | p in st.blocks[b].preds ensures b in st2.blocks[p].succs { assert SameEdgesAt(st, st2, p); }
    }
    forall b: nat | b < |st.blocks| ensures AboveAt(st2, l2, b) {
      assert SameEdgesAt(st, st2, b) && AboveAt(st, l, b);
    }
    forall b: nat | b < |st.blocks| ensures WayAt(st2, l2, b) {
      assert SameEdgesAt(st, st2, b) && WayAt(st, l, b);
      if Started(st2, b) { WayStays(st, st2, l.way[b], b); }
    }
  }

  lemma WayStays(st: Builder, st2: Builder, w: seq<nat>, b: nat)
    requires SameEdges(st, st2) && IsWay(st, w, b)
    ensures IsWay(st2, w, b)
  {
    forall i | 0 <= i < |w| ensures Started(st2, w[i]) { assert SameEdgesAt(st, st2, w[i]); }
    forall i | 0 < i < |w| ensures w[i - 1] in st2.blocks[w[i]].preds { assert SameEdgesAt(st, st2, w[i]); }
  }

  /** A step that touches no code, defined variables or declarations; blocks it makes are empty. */
  ghost predicate SameCode(st: Builder, l: Layout, st2: Builder, l2: Layout) {
    && Later(st, l, st2, l2) && |st2.blocks| == |l2.above| && st2.nextId == st.nextId && l2.decl == l.decl
    && forall b: nat :: b < |st2.blocks| ==> SameCodeAt(st, st2, b)
  }

  ghost predicate SameCodeAt(st: Builder, st2: Builder, b: nat) {
    && b < |st2.blocks|
    && st2.blocks[b].code == (if b < |st.blocks| then st.blocks[b].code else [])
    && st2.blocks[b].defs == (if b < |st.blocks| then st.blocks[b].defs else [])
  }

  lemma CodeStays(st: Builder, l: Layout, st2: Builder, l2: Layout)
    requires Sound(st, l) && SameCode(st, l, st2, l2)
    ensures Holds(MadeOnce, st2, l2) && Holds(DefsMatch, st2, l2) && Holds(Declared, st2, l2)
  {
    assert Holds(MadeOnce, st, l) && Holds(DefsMatch, st, l) && Holds(Declared, st, l);
    forall c: nat, j: nat, d: nat | Makes(st2, c, j, d) ensures Makes(st, c, j, d) { assert SameCodeAt(st, st2, c); }
    forall b: nat | b < |st2.blocks| ensures DefsAt(st2, l2, b) {
      assert SameCodeAt(st, st2, b);
      if b < |st.blocks| { assert DefsAt(st, l, b) && BlockLater(st, l, st2, l2, b); }
    }
    forall v | v in l2.decl ensures l2.decl[v] < |st2.blocks| && v in st2.blocks[l2.decl[v]].defs {
      assert SameCodeAt(st, st2, l.decl[v]);
    }
  }

  // ----- emitting -----

  /** st2 is st with one more instruction in the current block. */
  ghost predicate OneMore(st: Builder, l: Layout, ins: Instr, st2: Builder, l2: Layout) {
    && st.Ready() && SameEdges(st, st2) && Later(st, l, st2, l2) && |st.blocks| == |l.above| && l2.above == l.above
    && l2.way == l.way
    && st2.blocks[st.cur].code == st.Code() + [ins]
    && forall b: nat :: b < |st.blocks| && b != st.cur ==> SameCodeAt(st, st2, b)
  }

  lemma AppendedReads(st: Builder, l: Layout, ins: Instr, st2: Builder, l2: Layout)
    requires Sound(st, l) && OneMore(st, l, ins, st2, l2) && !ins.Phi?
    requires forall o :: o in Operands(ins) ==> OperandAt(st, l, o, st.cur, |st.Code()|)
    ensures Holds(InstrsRead, st2, l2) && Holds(TermsRead, st2, l2)
  {
    assert Holds(InstrsRead, st, l) && Holds(TermsRead, st, l);
    forall b: nat, i: nat | b < |st2.blocks| && i < |st2.blocks[b].code| ensures InstrAt(st2, l2, b, i) {
      assert SameEdgesAt(st, st2, b);
      if b == st.cur && i == |st.Code()| {
        assert st2.blocks[b].code[i] == ins;
        forall o | o in Operands(ins) ensures OperandAt(st2, l2, o, b, i) { OperandStays(st, l, st2, l2, o, b, i, i); }
      } else {
        if b != st.cur { assert SameCodeAt(st, st2, b); }
        assert InstrAt(st, l, b, i);
        InstrStays(st, l, st2, l2, b, i);
      }
    }
    forall b: nat | b < |st2.blocks| ensures TermAt(st2, l2, b) {
      assert SameEdgesAt(st, st2, b) && TermAt(st, l, b);
      TermStays(st, l, st2, l2, b);
    }
  }

  lemma AppendedElse(st: Builder, l: Layout, ins: Instr, st2: Builder, l2: Layout)
    requires Sound(st, l) && OneMore(st, l, ins, st2, l2)
    requires forall b: nat :: b < |st.blocks| && b != st.cur ==> st2.blocks[b].defs == st.blocks[b].defs
    requires ins.Phi? ==>
      forall i :: 0 <= i < |st.loops| ==> st.loops[i].continueTarget != st.cur && st.loops[i].breakTarget != st.cur
    ensures Holds(PendingEmpty, st2, l2) && Holds(LoopsOpen, st2, l2)
  {
    assert Holds(PendingEmpty, st, l) && Holds(LoopsOpen, st, l);
    forall b: nat | b < |st2.blocks| ensures PendingAt(st2, b) {
      assert SameEdgesAt(st, st2, b) && PendingAt(st, b);
      if b != st.cur { assert SameCodeAt(st, st2, b); }
    }
    forall i | 0 <= i < |st2.loops|
      ensures TargetAt(st2, l2, st2.loops[i].continueTarget) && TargetAt(st2, l2, st2.loops[i].breakTarget)
    {
      TargetStays(st, l, ins, st2, l2, st.loops[i].continueTarget);
      TargetStays(st, l, ins, st2, l2, st.loops[i].breakTarget);
    }
  }

  lemma TargetStays(st: Builder, l: Layout, ins: Instr, st2: Builder, l2: Layout, t: nat)
    requires OneMore(st, l, ins, st2, l2) && TargetAt(st, l, t) && (ins.Phi? ==> t != st.cur)
    ensures TargetAt(st2, l2, t)
  {
    if t != st.cur { assert SameCodeAt(st, st2, t); }
  }

  lemma AppendedMakes(st: Builder, l: Layout, ins: Instr, st2: Builder, l2: Layout)
    requires Sound(st, l) && OneMore(st, l, ins, st2, l2)
    requires match Dst(ins) case None => st2.nextId >= st.nextId
               case Some(d) => d == st.nextId && st2.nextId == st.nextId + 1
    ensures Holds(MadeOnce, st2, l2)
  {
    assert Holds(MadeOnce, st, l);
    forall c: nat, j: nat, d: nat | Makes(st2, c, j, d)
      ensures Makes(st, c, j, d) || (c == st.cur && j == |st.Code()| && Dst(ins) == Some(d))
    {
      if c != st.cur { assert SameCodeAt(st, st2, c); }
    }
  }

  lemma AppendedDefs(st: Builder, l: Layout, ins: Instr, st2: Builder, l2: Layout)
    requires Sound(st, l) && OneMore(st, l, ins, st2, l2) && Defined(ins) == None && l2.decl == l.decl
    requires forall b: nat :: b < |st.blocks| ==> st2.blocks[b].defs == st.blocks[b].defs
    ensures Holds(DefsMatch, st2, l2) && Holds(Declared, st2, l2)
  {
    assert Holds(DefsMatch, st, l) && Holds(Declared, st, l);
    forall b: nat | b < |st2.blocks| ensures DefsAt(st2, l2, b) {
      assert DefsAt(st, l, b);
      if b != st.cur {
        assert SameCodeAt(st, st2, b);
      } else {
        forall v ensures Defines(st2.blocks[b].code, v) <==> Defines(st.blocks[b].code, v) {
          DefinesMore(st.Code(), ins, v);
        }
      }
    }
  }

  lemma DefinesMore(code: seq<Instr>, ins: Instr, v: Var)
    ensures Defines(code + [ins], v) <==> Defines(code, v) || Defined(ins) == Some(v)
  {
    if Defines(code, v) {
      var i :| 0 <= i < |code| && Defined(code[i]) == Some(v);
      assert (code + [ins])[i] == code[i];
    }
    if Defined(ins) == Some(v) { assert (code + [ins])[|code|] == ins; }
  }

  /** One more instruction in the current block, and nothing else but the next value to produce. */
  ghost predicate Emits(st: Builder, l: Layout, ins: Instr, st2: Builder) {
    && OneMore(st, l, ins, st2, l)
    && forall b: nat :: b < |st.blocks| ==> st2.blocks[b].defs == st.blocks[b].defs
  }

  lemma EmitEmits(st: Builder, l: Layout, ins: Instr, n: nat)
    requires Sound(st, l) && st.Ready() && st.nextId <= n
    ensures Emits(st, l, ins, Emit(st, ins).(nextId := n))
  {
    var st2 := Emit(st, ins).(nextId := n);
    assert Holds(Sized, st, l);
    forall b: nat | b < |st.blocks| ensures BlockLater(st, l, st2, l, b) && SameEdgesAt(st, st2, b) {}
  }

  /** An instruction that defines no variable, whose operands are known to be there, keeps every rule. */
  lemma EmitsSound(st: Builder, l: Layout, ins: Instr, st2: Builder)
    requires Sound(st, l) && Emits(st, l, ins, st2) && Defined(ins) == None
    requires match Dst(ins) case None => st2.nextId >= st.nextId
               case Some(d) => d == st.nextId && st2.nextId == st.nextId + 1
    requires ins.Phi? ==>
      forall i :: 0 <= i < |st.loops| ==> st.loops[i].continueTarget != st.cur && st.loops[i].breakTarget != st.cur
    requires Holds(InstrsRead, st2, l) && Holds(TermsRead, st2, l)
    ensures Sound(st2, l)
  {
    hide Holds;
    EdgesStay(st, l, st2, l);
    AppendedElse(st, l, ins, st2, l);
    AppendedMakes(st, l, ins, st2, l);
    AppendedDefs(st, l, ins, st2, l);
    AllHold(st2, l);
  }

  /** An instruction that produces a value no one has produced before. */
  lemma ProduceSound(st: Builder, l: Layout, op: Op, args: seq<Operand>)
    requires Sound(st, l) && st.Ready() && forall o :: o in args ==> OperandAt(st, l, o, st.cur, |st.Code()|)
    ensures Sound(Produce(st, op, args), l) && Later(st, l, Produce(st, op, args), l)
    ensures OperandAt(Produce(st, op, args), l, Value(st.nextId), st.cur, |st.Code()| + 1)
  {
    hide Holds;
    var st2 := Produce(st, op, args);
    var ins := Compute(op, st.nextId, args, None);
    EmitEmits(st, l, ins, st.nextId + 1);
    AppendedReads(st, l, ins, st2, l);
    EmitsSound(st, l, ins, st2);
    assert Makes(st2, st.cur, |st.Code()|, st.nextId);
  }

  lemma PrintSound(st: Builder, l: Layout, o: Operand)
    requires Sound(st, l) && st.Ready() && OperandAt(st, l, o, st.cur, |st.Code()|)
    ensures Sound(Emit(st, Print(o)), l) && Later(st, l, Emit(st, Print(o)), l)
  {
    hide Holds;
    EmitEmits(st, l, Print(o), st.nextId);
    assert Emit(st, Print(o)).(nextId := st.nextId) == Emit(st, Print(o));
    AppendedReads(st, l, Print(o), Emit(st, Print(o)), l);
    EmitsSound(st, l, Print(o), Emit(st, Print(o)));
  }

  // ----- giving a variable its value -----

  function Declare(st: Builder, l: Layout, v: Var): Layout {
    if v in l.decl then l else l.(decl := l.decl[v := st.cur])
  }

  /** The operand can be bound to v: it is there, and if it is a value the last instruction made it. */
  ghost predicate Bindable(st: Builder, l: Layout, v: Var, o: Operand) {
    && st.Ready() && OperandAt(st, l, o, st.cur, |st.Code()|) && st.cur < |l.above|
    && (v in l.decl ==> l.decl[v] in l.above[st.cur])
    && (o.Value? ==>
          var last := |st.Code()| - 1;
          last >= 0 && Dst(st.Code()[last]) == Some(o.id) && Defined(st.Code()[last]) == None)
  }

  /** Recording one more definition in the current block, made by its code. */
  lemma RecordedDefs(st: Builder, l: Layout, v: Var, st2: Builder)
    requires Sound(st, l) && st.Ready() && SameEdges(st, st2) && st.cur < |l.above|
    requires (v in l.decl ==> l.decl[v] in l.above[st.cur])
    requires forall b: nat :: b < |st.blocks| && b != st.cur ==> SameCodeAt(st, st2, b)
    requires st2.blocks[st.cur].defs == st.blocks[st.cur].defs + [v]
    requires forall u :: Defines(st2.blocks[st.cur].code, u) <==> Defines(st.Code(), u) || u == v
    ensures Holds(DefsMatch, st2, Declare(st, l, v)) && Holds(Declared, st2, Declare(st, l, v))
  {
    var l2 := Declare(st, l, v);
    assert Holds(DefsMatch, st, l) && Holds(Declared, st, l) && Holds(AboveKept, st, l);
    forall b: nat | b < |st2.blocks| ensures DefsAt(st2, l2, b) {
      assert DefsAt(st, l, b) && AboveAt(st, l, b);
      if b != st.cur { assert SameCodeAt(st, st2, b); }
    }
    forall u | u in l2.decl ensures l2.decl[u] < |st2.blocks| && u in st2.blocks[l2.decl[u]].defs {
      if l2.decl[u] != st.cur { assert SameCodeAt(st, st2, l2.decl[u]); }
    }
  }

  lemma BindRefSound(st: Builder, l: Layout, v: Var, o: Operand)
    requires Sound(st, l) && Bindable(st, l, v, o) && o.VarRef?
    ensures Sound(BindLocal(st, v, o), Declare(st, l, v)) && Later(st, l, BindLocal(st, v, o), Declare(st, l, v))
    ensures DefinedBefore(BindLocal(st, v, o).blocks[st.cur].code, v, |st.Code()| + 1)
  {
    hide BindLocal, Holds;
    var st2 := BindLocal(st, v, o);
    var l2 := Declare(st, l, v);
    var ins := Bind(o, v);
    BindAppends(st, l, v, o);
    forall b: nat | b < |st.blocks| && b != st.cur ensures st2.blocks[b].defs == st.blocks[b].defs {
      assert SameCodeAt(st, st2, b);
    }
    EdgesStay(st, l, st2, l2);
    AppendedReads(st, l, ins, st2, l2);
    AppendedElse(st, l, ins, st2, l2);
    AppendedMakes(st, l, ins, st2, l2);
    forall u ensures Defines(st2.blocks[st.cur].code, u) <==> Defines(st.Code(), u) || u == v {
      DefinesMore(st.Code(), ins, u);
    }
    RecordedDefs(st, l, v, st2);
    assert st2.blocks[st.cur].code[|st.Code()|] == ins;
    AllHold(st2, l2);
  }

  lemma BindAppends(st: Builder, l: Layout, v: Var, o: Operand)
    requires Sound(st, l) && Bindable(st, l, v, o) && o.VarRef?
    ensures OneMore(st, l, Bind(o, v), BindLocal(st, v, o), Declare(st, l, v))
    ensures BindLocal(st, v, o).nextId == st.nextId
    ensures BindLocal(st, v, o).blocks[st.cur].defs == st.blocks[st.cur].defs + [v]
  {
    var st2 := BindLocal(st, v, o);
    var l2 := Declare(st, l, v);
    assert Holds(Sized, st, l);
    forall b: nat | b < |st.blocks| ensures BlockLater(st, l, st2, l2, b) && SameEdgesAt(st, st2, b) {}
  }

  /** Marking the last instruction as v's definition. */
  lemma BindValueSound(st: Builder, l: Layout, v: Var, o: Operand)
    requires Sound(st, l) && Bindable(st, l, v, o) && o.Value?
    ensures Sound(BindLocal(st, v, o), Declare(st, l, v)) && Later(st, l, BindLocal(st, v, o), Declare(st, l, v))
    ensures DefinedBefore(BindLocal(st, v, o).blocks[st.cur].code, v, |st.Code()|)
  {
    hide BindLocal, Holds;
    var st2 := BindLocal(st, v, o);
    var l2 := Declare(st, l, v);
    BindTags(st, l, v, o);
    EdgesStay(st, l, st2, l2);
    TaggedReads(st, l, v, st2, l2);
    TaggedElse(st, l, v, st2, l2);
    forall u ensures Defines(st2.blocks[st.cur].code, u) <==> Defines(st.Code(), u) || u == v {
      DefinesTagged(st.Code(), v, u);
    }
    RecordedDefs(st, l, v, st2);
    assert Defined(st2.blocks[st.cur].code[|st.Code()| - 1]) == Some(v);
    AllHold(st2, l2);
  }

  lemma BindTags(st: Builder, l: Layout, v: Var, o: Operand)
    requires Sound(st, l) && Bindable(st, l, v, o) && o.Value?
    ensures TagStep(st, l, v, BindLocal(st, v, o), Declare(st, l, v))
    ensures BindLocal(st, v, o).blocks[st.cur].defs == st.blocks[st.cur].defs + [v]
  {
    var st2 := BindLocal(st, v, o);
    var l2 := Declare(st, l, v);
    assert Holds(Sized, st, l);
    forall b: nat | b < |st.blocks| ensures BlockLater(st, l, st2, l2, b) && SameEdgesAt(st, st2, b) {}
  }

  function Tagged(code: seq<Instr>, v: Var): seq<Instr>
    requires code != []
  {
    code[|code| - 1 := Tag(code[|code| - 1], v)]
  }

  lemma DefinesTagged(code: seq<Instr>, v: Var, u: Var)
    requires code != [] && Dst(code[|code| - 1]).Some? && Defined(code[|code| - 1]) == None
    ensures Defines(Tagged(code, v), u) <==> Defines(code, u) || u == v
  {
    var t := Tagged(code, v);
    assert Defined(t[|code| - 1]) == Some(v);
    if Defines(code, u) {
      var i :| 0 <= i < |code| && Defined(code[i]) == Some(u);
      assert Defined(t[i]) == Some(u);
    }
    if Defines(t, u) && u != v {
      var i :| 0 <= i < |t| && Defined(t[i]) == Some(u);
      assert Defined(code[i]) == Some(u);
    }
  }

  ghost predicate TagStep(st: Builder, l: Layout, v: Var, st2: Builder, l2: Layout) {
    && st.Ready() && SameEdges(st, st2) && Later(st, l, st2, l2) && |st.blocks| == |l.above| && l2.above == l.above
    && l2.way == l.way
    && st.Code() != [] && st2.blocks[st.cur].code == Tagged(st.Code(), v) && st2.nextId == st.nextId
    && Dst(st.Code()[|st.Code()| - 1]).Some? && Defined(st.Code()[|st.Code()| - 1]) == None
    && forall b: nat :: b < |st.blocks| && b != st.cur ==> SameCodeAt(st, st2, b)
  }

  lemma TaggedReads(st: Builder, l: Layout, v: Var, st2: Builder, l2: Layout)
    requires Sound(st, l) && TagStep(st, l, v, st2, l2)
    ensures Holds(InstrsRead, st2, l2) && Holds(TermsRead, st2, l2)
  {
    assert Holds(InstrsRead, st, l) && Holds(TermsRead, st, l);
    forall b: nat, i: nat | b < |st2.blocks| && i < |st2.blocks[b].code| ensures InstrAt(st2, l2, b, i) {
      assert SameEdgesAt(st, st2, b);
      if b != st.cur { assert SameCodeAt(st, st2, b); }
      assert InstrAt(st, l, b, i);
      InstrStays(st, l, st2, l2, b, i);
    }
    forall b: nat | b < |st2.blocks| ensures TermAt(st2, l2, b) {
      assert SameEdgesAt(st, st2, b) && TermAt(st, l, b);
      TermStays(st, l, st2, l2, b);
    }
  }

  lemma TaggedElse(st: Builder, l: Layout, v: Var, st2: Builder, l2: Layout)
    requires Sound(st, l) && TagStep(st, l, v, st2, l2)
    ensures Holds(MadeOnce, st2, l2) && Holds(PendingEmpty, st2, l2) && Holds(LoopsOpen, st2, l2)
  {
    assert Holds(MadeOnce, st, l) && Holds(PendingEmpty, st, l) && Holds(LoopsOpen, st, l);
    forall c: nat, j: nat, d: nat | Makes(st2, c, j, d) ensures Makes(st, c, j, d) {
      if c != st.cur { assert SameCodeAt(st, st2, c); }
    }
    forall b: nat | b < |st2.blocks| ensures PendingAt(st2, b) {
      assert SameEdgesAt(st, st2, b) && PendingAt(st, b);
      if b != st.cur { assert SameCodeAt(st, st2, b); }
    }
    forall i | 0 <= i < |st2.loops|
      ensures TargetAt(st2, l2, st2.loops[i].continueTarget) && TargetAt(st2, l2, st2.loops[i].breakTarget)
    {
      TaggedTarget(st, l, v, st2, l2, st.loops[i].continueTarget);
      TaggedTarget(st, l, v, st2, l2, st.loops[i].breakTarget);
    }
  }

  lemma TaggedTarget(st: Builder, l: Layout, v: Var, st2: Builder, l2: Layout, t: nat)
    requires TagStep(st, l, v, st2, l2) && TargetAt(st, l, t)
    ensures TargetAt(st2, l2, t)
  {
    if t != st.cur { assert SameCodeAt(st, st2, t); }
  }

  // ----- leaving a block -----

  /** Control may go from the current block to t. */
  ghost predicate CanEnter(st: Builder, l: Layout, t: nat) {
    && 0 < t < |st.blocks| && t < |l.above| && st.cur < |l.above|
    && PhiFree(st.blocks[t].code, 0) && l.above[t] <= l.above[st.cur] + {t}
  }

  ghost predicate LeavesAt(st: Builder, t: Term, st2: Builder, b: nat) {
    && b < |st.blocks| && b < |st2.blocks|
    && st2.blocks[b].code == st.blocks[b].code && st2.blocks[b].defs == st.blocks[b].defs
    && st2.blocks[b].term == (if b == st.cur then Some(t) else st.blocks[b].term)
    && st2.blocks[b].succs == (if b == st.cur then Targets(t) else st.blocks[b].succs)
    && st2.blocks[b].preds == (if b in Targets(t) then st.blocks[b].preds + [st.cur] else st.blocks[b].preds)
  }

  /** st2 is st with its current block ended by t. A branch goes to blocks not yet started. */
  ghost predicate Leaves(st: Builder, l: Layout, t: Term, st2: Builder) {
    && st.Ready() && |st2.blocks| == |st.blocks| == |l.above| && st2.cur == st.cur && st2.nextId == st.nextId
    && st2.loops == st.loops
    && (forall b: nat :: b < |st.blocks| ==> LeavesAt(st, t, st2, b))
    && Distinct(Targets(t)) && (forall x :: x in Targets(t) ==> CanEnter(st, l, x) && (t.Branch? ==> !Started(st, x)))
    && (forall o :: o in TermOperands(t) ==> OperandAt(st, l, o, st.cur, |st.Code()|))
  }

  lemma LeavesMirrored(st: Builder, l: Layout, t: Term, st2: Builder)
    requires Sound(st, l) && Leaves(st, l, t, st2)
    ensures Holds(Mirrored, st2, l)
  {
    assert Holds(Mirrored, st, l);
    assert EdgesAt(st, st.cur);
    forall b: nat | b < |st2.blocks| ensures EdgesAt(st2, b) {
      assert EdgesAt(st, b) && LeavesAt(st, t, st2, b);
      forall s | s in st2.blocks[b].succs ensures s < |st2.blocks| && b in st2.blocks[s].preds {
        assert LeavesAt(st, t, st2, s);
      }
      forall p | p in st2.blocks[b].preds ensures p < |st2.blocks| && b in st2.blocks[p].succs {
        assert LeavesAt(st, t, st2, p);
      }
    }
  }

  lemma LeavesWays(st: Builder, l: Layout, t: Term, st2: Builder)
    requires Sound(st, l) && Leaves(st, l, t, st2)
    ensures Holds(Sized, st2, l) && Holds(AboveKept, st2, l) && Holds(WaysExist, st2, l)
  {
    assert Holds(Sized, st, l) && Holds(AboveKept, st, l) && Holds(WaysExist, st, l);
    forall b: nat | b < |st2.blocks| ensures AboveAt(st2, l, b) { assert AboveAt(st, l, b) && LeavesAt(st, t, st2, b); }
    forall b: nat | b < |st2.blocks| ensures WayAt(st2, l, b) {
      assert WayAt(st, l, b) && LeavesAt(st, t, st2, b);
      if Started(st2, b) { LeavesWay(st, l, t, st2, l.way[b], b); }
    }
  }

  lemma LeavesWay(st: Builder, l: Layout, t: Term, st2: Builder, w: seq<nat>, b: nat)
    requires Leaves(st, l, t, st2) && IsWay(st, w, b)
    ensures IsWay(st2, w, b)
  {
    forall i | 0 <= i < |w| ensures Started(st2, w[i]) { assert Started(st, w[i]) && LeavesAt(st, t, st2, w[i]); }
    forall i | 0 < i < |w| ensures w[i - 1] in st2.blocks[w[i]].preds {
      assert Started(st, w[i]) && LeavesAt(st, t, st2, w[i]);
    }
  }

  lemma LeavesReads(st: Builder, l: Layout, t: Term, st2: Builder)
    requires Sound(st, l) && Leaves(st, l, t, st2) && Later(st, l, st2, l)
    ensures Holds(InstrsRead, st2, l) && Holds(TermsRead, st2, l)
  {
    assert Holds(InstrsRead, st, l) && Holds(TermsRead, st, l);
    forall b: nat, i: nat | b < |st2.blocks| && i < |st2.blocks[b].code| ensures InstrAt(st2, l, b, i) {
      assert LeavesAt(st, t, st2, b) && InstrAt(st, l, b, i);
      InstrStays(st, l, st2, l, b, i);
    }
    forall b: nat | b < |st2.blocks| ensures TermAt(st2, l, b) {
      assert LeavesAt(st, t, st2, b) && TermAt(st, l, b);
      if b != st.cur {
        TermStays(st, l, st2, l, b);
      } else {
        forall o | o in TermOperands(t) ensures OperandAt(st2, l, o, b, |st2.blocks[b].code|) {
          OperandStays(st, l, st2, l, o, b, |st.Code()|, |st.Code()|);
        }
      }
    }
  }

  lemma LeavesElse(st: Builder, l: Layout, t: Term, st2: Builder)
    requires Sound(st, l) && Leaves(st, l, t, st2)
    ensures Holds(PendingEmpty, st2, l) && Holds(LoopsOpen, st2, l)
  {
    assert Holds(PendingEmpty, st, l) && Holds(LoopsOpen, st, l);
    forall b: nat | b < |st2.blocks| ensures PendingAt(st2, b) { assert PendingAt(st, b) && LeavesAt(st, t, st2, b); }
    forall i | 0 <= i < |st2.loops|
      ensures TargetAt(st2, l, st2.loops[i].continueTarget) && TargetAt(st2, l, st2.loops[i].breakTarget)
    {
      assert LeavesAt(st, t, st2, st.loops[i].continueTarget) && LeavesAt(st, t, st2, st.loops[i].breakTarget);
    }
  }

  /** Ending the current block keeps every rule. */
  lemma LeavesSound(st: Builder, l: Layout, t: Term, st2: Builder)
    requires Sound(st, l) && Leaves(st, l, t, st2)
    ensures Sound(st2, l) && Later(st, l, st2, l)
  {
    forall b: nat | b < |st.blocks| ensures BlockLater(st, l, st2, l, b) && SameCodeAt(st, st2, b) {
      assert LeavesAt(st, t, st2, b);
    }
    LeavesMirrored(st, l, t, st2);
    LeavesWays(st, l, t, st2);
    LeavesReads(st, l, t, st2);
    LeavesElse(st, l, t, st2);
    CodeStays(st, l, st2, l);
    AllHold(st2, l);
  }

  lemma JumpSound(st: Builder, l: Layout, t: nat)
    requires Sound(st, l) && st.Ready() && CanEnter(st, l, t)
    ensures Sound(JumpTo(st, t), l) && Later(st, l, JumpTo(st, t), l)
  {
    assert Holds(Sized, st, l) && Holds(Mirrored, st, l);
    assert EdgesAt(st, st.cur);
    LeavesSound(st, l, Jump(t), JumpTo(st, t));
  }

  lemma BranchSound(st: Builder, l: Layout, x: Operand, t: nat, f: nat)
    requires Sound(st, l) && st.Ready() && CanEnter(st, l, t) && CanEnter(st, l, f) && t != f && !Started(st, t)
    requires !Started(st, f)
    requires OperandAt(st, l, x, st.cur, |st.Code()|)
    ensures Sound(BranchTo(st, x, t, f), l) && Later(st, l, BranchTo(st, x, t, f), l)
  {
    hide WayAt, Later, PhiFree, MadeAt;
    assert Holds(Sized, st, l) && Holds(Mirrored, st, l);
    assert EdgesAt(st, st.cur);
    LeavesSound(st, l, Branch(x, t, f), BranchTo(st, x, t, f));
  }

  lemma ReturnSound(st: Builder, l: Layout, o: Operand)
    requires Sound(st, l) && st.Ready() && OperandAt(st, l, o, st.cur, |st.Code()|)
    ensures Sound(SetTerm(st, Return(Some(o))), l) && Later(st, l, SetTerm(st, Return(Some(o))), l)
  {
    assert Holds(Sized, st, l) && Holds(Mirrored, st, l);
    assert EdgesAt(st, st.cur);
    LeavesSound(st, l, Return(Some(o)), SetTerm(st, Return(Some(o))));
  }

  // ----- new blocks, and starting them -----

  function WithBlock(l: Layout, s: set<nat>): Layout {
    l.(above := l.above + [s], way := l.way + [[]])
  }

  lemma MakeBlockSound(st: Builder, l: Layout, s: set<nat>)
    requires Sound(st, l) && |st.blocks| in s
    ensures Sound(MakeBlock(st), WithBlock(l, s)) && Later(st, l, MakeBlock(st), WithBlock(l, s))
  {
    var st2 := MakeBlock(st);
    var l2 := WithBlock(l, s);
    assert Holds(Sized, st, l);
    forall b: nat | b < |st.blocks| ensures BlockLater(st, l, st2, l2, b) {}
    forall b: nat | b < |st2.blocks| ensures SameCodeAt(st, st2, b) {}
    CodeStays(st, l, st2, l2);
    MadeBlockEdges(st, l, s);
    MadeBlockReads(st, l, s);
    AllHold(st2, l2);
  }

  lemma MadeBlockEdges(st: Builder, l: Layout, s: set<nat>)
    requires Sound(st, l) && |st.blocks| in s
    ensures var st2 := MakeBlock(st);
            var l2 := WithBlock(l, s);
            && Holds(Sized, st2, l2) && Holds(Mirrored, st2, l2) && Holds(PendingEmpty, st2, l2)
            && Holds(AboveKept, st2, l2) && Holds(WaysExist, st2, l2) && Holds(LoopsOpen, st2, l2)
  {
    var st2 := MakeBlock(st);
    var l2 := WithBlock(l, s);
    assert Holds(Sized, st, l) && Holds(Mirrored, st, l) && Holds(PendingEmpty, st, l) && Holds(AboveKept, st, l)
        && Holds(WaysExist, st, l) && Holds(LoopsOpen, st, l);
    forall b: nat | b < |st2.blocks| ensures EdgesAt(st2, b) { if b < |st.blocks| { assert EdgesAt(st, b); } }
    forall b: nat | b < |st2.blocks| ensures PendingAt(st2, b) { if b < |st.blocks| { assert PendingAt(st, b); } }
    forall b: nat | b < |st2.blocks| ensures AboveAt(st2, l2, b) { if b < |st.blocks| { assert AboveAt(st, l, b); } }
    forall b: nat | b < |st2.blocks| ensures WayAt(st2, l2, b) {
      if b < |st.blocks| {
        assert WayAt(st, l, b);
        if Started(st2, b) { assert IsWay(st2, l.way[b], b); }
      }
    }
  }

  lemma MadeBlockReads(st: Builder, l: Layout, s: set<nat>)
    requires Sound(st, l) && Later(st, l, MakeBlock(st), WithBlock(l, s))
    ensures Holds(InstrsRead, MakeBlock(st), WithBlock(l, s)) && Holds(TermsRead, MakeBlock(st), WithBlock(l, s))
  {
    var st2 := MakeBlock(st);
    var l2 := WithBlock(l, s);
    assert Holds(InstrsRead, st, l) && Holds(TermsRead, st, l);
    forall b: nat, i: nat | b < |st2.blocks| && i < |st2.blocks[b].code| ensures InstrAt(st2, l2, b, i) {
      assert InstrAt(st, l, b, i);
      InstrStays(st, l, st2, l2, b, i);
    }
    forall b: nat | b < |st2.blocks| ensures TermAt(st2, l2, b) {
      if b < |st.blocks| {
        assert TermAt(st, l, b);
        TermStays(st, l, st2, l2, b);
      }
    }
  }

  /** The loops control is in can still be left, or started again, from block p. */
  ghost predicate LoopsReach(st: Builder, loops: seq<Loop>, l: Layout, p: nat) {
    forall i :: 0 <= i < |loops|
      ==> ReachAt(st, l, loops[i].continueTarget, p) && ReachAt(st, l, loops[i].breakTarget, p)
  }

  ghost predicate ReachAt(st: Builder, l: Layout, t: nat, p: nat) {
    0 < t < |st.blocks| && t < |l.above| && p < |l.above| && PhiFree(st.blocks[t].code, 0)
      && l.above[t] <= l.above[p] + {t}
  }

  function StartAt(st: Builder, l: Layout, p: nat): Layout
    requires p < |st.blocks| && |l.way| == |st.blocks|
  {
    var preds := st.blocks[p].preds;
    if preds != [] && preds[0] < |l.way| then l.(way := l.way[p := l.way[preds[0]] + [p]]) else l
  }

  lemma MoveSound(st: Builder, l: Layout, p: nat, loops: seq<Loop>)
    requires Sound(st, l) && st.cur < |st.blocks| == |l.way| && st.Terminated()
    requires p < |st.blocks| && !Started(st, p) && st.blocks[p].preds != [] && LoopsReach(st, loops, l, p)
    ensures Sound(st.(cur := p, loops := loops), StartAt(st, l, p))
    ensures Later(st, l, st.(cur := p, loops := loops), StartAt(st, l, p))
    ensures StartAt(st, l, p).above == l.above && StartAt(st, l, p).decl == l.decl
  {
    var st2 := st.(cur := p, loops := loops);
    var l2 := StartAt(st, l, p);
    assert Holds(Sized, st, l);
    forall b: nat | b < |st.blocks| ensures BlockLater(st, l, st2, l2, b) && SameCodeAt(st, st2, b) {}
    CodeStays(st, l, st2, l2);
    MovedWays(st, l, p, loops);
    MovedReads(st, l, p, loops);
    AllHold(st2, l2);
  }

  lemma MovedWays(st: Builder, l: Layout, p: nat, loops: seq<Loop>)
    requires Sound(st, l) && st.cur < |st.blocks| == |l.way| && st.Terminated()
    requires p < |st.blocks| && !Started(st, p) && st.blocks[p].preds != [] && LoopsReach(st, loops, l, p)
    ensures Holds(WaysExist, st.(cur := p, loops := loops), StartAt(st, l, p))
    ensures Holds(Sized, st.(cur := p, loops := loops), StartAt(st, l, p))
  {
    var st2 := st.(cur := p, loops := loops);
    var l2 := StartAt(st, l, p);
    var q := st.blocks[p].preds[0];
    assert Holds(Sized, st, l) && Holds(Mirrored, st, l) && Holds(WaysExist, st, l);
    assert EdgesAt(st, p);
    assert q in st.blocks[p].preds;
    assert EdgesAt(st, q);
    assert Started(st, q);
    assert WayAt(st, l, q);
    forall b: nat | b < |st2.blocks| ensures WayAt(st2, l2, b) {
      assert WayAt(st, l, b);
      if b == p {
        assert IsWay(st2, l.way[q] + [p], p);
      } else if Started(st2, b) {
        assert IsWay(st2, l.way[b], b);
      }
    }
  }

  lemma MovedReads(st: Builder, l: Layout, p: nat, loops: seq<Loop>)
    requires Sound(st, l) && st.cur < |st.blocks| == |l.way| && st.Terminated()
    requires p < |st.blocks| && !Started(st, p) && LoopsReach(st, loops, l, p)
    requires Later(st, l, st.(cur := p, loops := loops), StartAt(st, l, p))
    ensures var st2 := st.(cur := p, loops := loops);
            var l2 := StartAt(st, l, p);
            && Holds(Mirrored, st2, l2) && Holds(PendingEmpty, st2, l2) && Holds(AboveKept, st2, l2)
            && Holds(InstrsRead, st2, l2) && Holds(TermsRead, st2, l2) && Holds(LoopsOpen, st2, l2)
  {
    var st2 := st.(cur := p, loops := loops);
    var l2 := StartAt(st, l, p);
    assert Holds(Mirrored, st, l) && Holds(PendingEmpty, st, l) && Holds(AboveKept, st, l)
        && Holds(InstrsRead, st, l) && Holds(TermsRead, st, l);
    forall b: nat | b < |st2.blocks| ensures EdgesAt(st2, b) { assert EdgesAt(st, b); }
    forall b: nat | b < |st2.blocks| ensures PendingAt(st2, b) { assert PendingAt(st, b); }
    forall b: nat | b < |st2.blocks| ensures AboveAt(st2, l2, b) { assert AboveAt(st, l, b); }
    forall b: nat, i: nat | b < |st2.blocks| && i < |st2.blocks[b].code| ensures InstrAt(st2, l2, b, i) {
      assert InstrAt(st, l, b, i);
      InstrStays(st, l, st2, l2, b, i);
    }
    forall b: nat | b < |st2.blocks| ensures TermAt(st2, l2, b) {
      assert TermAt(st, l, b);
      TermStays(st, l, st2, l2, b);
    }
    forall i | 0 <= i < |st2.loops|
      ensures TargetAt(st2, l2, st2.loops[i].continueTarget) && TargetAt(st2, l2, st2.loops[i].breakTarget)
    {
      assert ReachAt(st, l, loops[i].continueTarget, p) && ReachAt(st, l, loops[i].breakTarget, p);
    }
  }

  // ----- a phi at the start of a merge block -----

  function EmitPhi(st: Builder, phis: seq<Incoming>): Builder
    requires st.cur < |st.blocks|
  {
    Emit(st, Phi(st.nextId, phis, None, None)).(nextId := st.nextId + 1)
  }

  /** The phi has one entry for each predecessor, each with a value that is there at its end. */
  ghost predicate PhiFits(st: Builder, l: Layout, phis: seq<Incoming>) {
    && st.Ready() && st.Code() == [] && |phis| == |st.blocks[st.cur].preds|
    && (forall k :: 0 <= k < |phis| ==> phis[k].pred == st.blocks[st.cur].preds[k] && EntryAt(st, l, phis[k]))
    && forall i :: 0 <= i < |st.loops| ==> st.loops[i].continueTarget != st.cur && st.loops[i].breakTarget != st.cur
  }

  lemma PhiReads(st: Builder, l: Layout, phis: seq<Incoming>)
    requires Sound(st, l) && PhiFits(st, l, phis)
    requires OneMore(st, l, Phi(st.nextId, phis, None, None), EmitPhi(st, phis), l)
    ensures Holds(InstrsRead, EmitPhi(st, phis), l) && Holds(TermsRead, EmitPhi(st, phis), l)
  {
    var st2 := EmitPhi(st, phis);
    assert Holds(InstrsRead, st, l) && Holds(TermsRead, st, l);
    forall b: nat, i: nat | b < |st2.blocks| && i < |st2.blocks[b].code| ensures InstrAt(st2, l, b, i) {
      assert SameEdgesAt(st, st2, b);
      if b == st.cur {
        forall k | 0 <= k < |phis| ensures EntryAt(st2, l, phis[k]) { EntryStays(st, l, st2, l, phis[k]); }
      } else {
        assert SameCodeAt(st, st2, b) && InstrAt(st, l, b, i);
        InstrStays(st, l, st2, l, b, i);
      }
    }
    forall b: nat | b < |st2.blocks| ensures TermAt(st2, l, b) {
      assert SameEdgesAt(st, st2, b) && TermAt(st, l, b);
      TermStays(st, l, st2, l, b);
    }
  }

  lemma PhiSound(st: Builder, l: Layout, phis: seq<Incoming>)
    requires Sound(st, l) && PhiFits(st, l, phis)
    ensures Sound(EmitPhi(st, phis), l) && Later(st, l, EmitPhi(st, phis), l)
    ensures OperandAt(EmitPhi(st, phis), l, Value(st.nextId), st.cur, 1)
  {
    hide Holds;
    var st2 := EmitPhi(st, phis);
    EmitEmits(st, l, Phi(st.nextId, phis, None, None), st.nextId + 1);
    PhiReads(st, l, phis);
    EmitsSound(st, l, Phi(st.nextId, phis, None, None), st2);
    assert Makes(st2, st.cur, 0, st.nextId);
  }
}
