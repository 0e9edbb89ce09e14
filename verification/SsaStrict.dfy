/** What renaming leaves behind: no variable references, and every value produced before it is read. */
module SsaStrict {
  import opened Graph
  import opened Hir
  import opened SsaForm
  import opened SsaCorrect

  ghost predicate AllValues(os: seq<Operand>) {
    forall o :: o in os ==> o.Value?
  }

  ghost predicate InstrResolved(i: Instr) {
    AllValues(Operands(i)) && (i.Phi? ==> forall k :: 0 <= k < |i.phis| ==> i.phis[k].value.Value?)
  }

  ghost predicate ResolvedAt(f: Func, b: nat, i: nat)
    requires b < |f.blocks| && i < |f.blocks[b].code|
  {
    InstrResolved(f.blocks[b].code[i])
  }

  ghost predicate TermResolved(f: Func, b: nat)
    requires b < |f.blocks|
  {
    AllValues(TermOperands(f.blocks[b].term))
  }

  ghost predicate Resolved(f: Func) {
    && (forall b, i :: 0 <= b < |f.blocks| && 0 <= i < |f.blocks[b].code| ==> ResolvedAt(f, b, i))
    && (forall b :: 0 <= b < |f.blocks| ==> TermResolved(f, b))
  }

  /** SSA form: resolved, one producer per value, and producers dominate readers. */
  ghost predicate StrictSsa(f: Func) {
    Shaped(f) && Resolved(f) && ValuesProduced(f)
  }

  lemma RenamedGraph(f: Func)
    requires WellFormed(f.Graph())
    ensures Renamed(f).Graph() == f.Graph()
  {
    assert Renamed(f).Graph().preds == f.Graph().preds;
    assert Renamed(f).Graph().succs == f.Graph().succs;
  }

  lemma RenamedProduces(f: Func, b: nat, i: nat, d: Val)
    requires WellFormed(f.Graph())
    ensures Produces(Renamed(f), b, i, d) <==> Produces(f, b, i, d)
  {
  }

  lemma RenamedAvailable(f: Func, d: Val, b: nat, i: nat)
    requires WellFormed(f.Graph()) && Available(f, d, b, i)
    ensures Available(Renamed(f), d, b, i)
  {
    RenamedGraph(f);
    var c: nat, j: nat :| Produces(f, c, j, d) && ((c == b && j < i) || SDom(f.Graph(), c, b));
    RenamedProduces(f, c, j, d);
  }

  lemma AvailableBelowBound(f: Func, d: Val, b: nat, i: nat)
    requires Shaped(f) && Available(f, d, b, i)
    ensures d < f.lastValueId
  {
    var c: nat, j: nat :| Produces(f, c, j, d) && ((c == b && j < i) || SDom(f.Graph(), c, b));
    assert BlockShaped(f, c) && InstrShaped(f, c, j);
  }

  /** A renamed operand is a value that has been produced. */
  lemma OperandResolved(f: Func, decl: map<Var, nat>, b: nat, i: nat, o: Operand)
    requires PhiReady(f, decl) && b < |f.blocks| && i <= |f.blocks[b].code|
    requires o.VarRef? ==> Visible(f, decl, o.sym, b, i)
    requires o.Value? ==> Available(f, o.id, b, i)
    ensures var r := RenameOperand(EnvAt(f, b, i), o);
            r.Value? && Available(Renamed(f), r.id, b, i) && r.id < f.lastValueId
  {
    if o.VarRef? {
      VisibleOnStack(f, decl, o.sym, b, i);
      TopsAvailable(f, decl, b, i, o.sym);
    }
    var d := RenameOperand(EnvAt(f, b, i), o).id;
    RenamedAvailable(f, d, b, i);
    AvailableBelowBound(f, d, b, i);
  }

  lemma RenamedOperandsIn(env: Env, os: seq<Operand>, r: Operand) returns (o: Operand)
    requires r in RenameOperands(env, os)
    ensures o in os && r == RenameOperand(env, o)
  {
    var k :| 0 <= k < |os| && RenameOperands(env, os)[k] == r;
    o := os[k];
  }

  lemma OperandsResolved(f: Func, decl: map<Var, nat>, b: nat, i: nat, os: seq<Operand>)
    requires PhiReady(f, decl) && b < |f.blocks| && i <= |f.blocks[b].code|
    requires OperandsVisible(f, decl, os, b, i) && OperandsAvailable(f, os, b, i)
    ensures var rs := RenameOperands(EnvAt(f, b, i), os);
            && AllValues(rs) && OperandsAvailable(Renamed(f), rs, b, i)
            && forall r :: r in rs ==> r.Value? && r.id < f.lastValueId
  {
    forall r | r in RenameOperands(EnvAt(f, b, i), os)
      ensures r.Value? && Available(Renamed(f), r.id, b, i) && r.id < f.lastValueId
    {
      var o := RenamedOperandsIn(EnvAt(f, b, i), os, r);
      OperandResolved(f, decl, b, i, o);
    }
  }

  lemma OperandsOfRenamed(env: Env, i: Instr)
    requires !i.Phi?
    ensures Operands(RenameInstr(env, i)) == RenameOperands(env, Operands(i))
  {
  }

  lemma TermOperandsOfRenamed(env: Env, t: Term)
    ensures TermOperands(RenameTerm(env, t)) == RenameOperands(env, TermOperands(t))
    ensures Targets(RenameTerm(env, t)) == Targets(t)
  {
  }

  ghost predicate PhiEntryOk(f: Func, e: Incoming) {
    && e.value.Value? && e.value.id < f.lastValueId
    && (e.pred < |f.blocks| ==> Available(f, e.value.id, e.pred, |f.blocks[e.pred].code|))
  }

  lemma PhiResolved(f: Func, decl: map<Var, nat>, b: nat, i: nat)
    requires PhiReady(f, decl) && b < |f.blocks| && i < |f.blocks[b].code| && f.blocks[b].code[i].Phi?
    ensures forall k :: 0 <= k < |f.blocks[b].code[i].phis|
              ==> PhiEntryOk(Renamed(f), RenamePhis(f, f.blocks[b].code[i].phis)[k])
  {
    var ins := f.blocks[b].code[i];
    assert BlockShaped(f, b) && InstrShaped(f, b, i) && InstrScoped(f, decl, b, i) && InstrSupplied(f, b, i);
    forall k | 0 <= k < |ins.phis|
      ensures PhiEntryOk(Renamed(f), RenamePhis(f, ins.phis)[k])
    {
      var e := ins.phis[k];
      assert e in ins.phis;
      assert e.pred in f.Graph().preds[b];
      OperandResolved(f, decl, e.pred, |f.blocks[e.pred].code|, e.value);
    }
  }

  lemma InstrDone(f: Func, decl: map<Var, nat>, b: nat, i: nat)
    requires PhiReady(f, decl) && b < |f.blocks| && i < |f.blocks[b].code|
    ensures var r := RenamedInstr(f, b, i);
            && InstrResolved(r) && OperandsAvailable(Renamed(f), Operands(r), b, i) && PhiAvailable(Renamed(f), r)
            && ValuesBelow(r, f.lastValueId) && PhiMatches(r, f.blocks[b].preds)
  {
    var ins := f.blocks[b].code[i];
    assert BlockShaped(f, b) && InstrShaped(f, b, i) && InstrScoped(f, decl, b, i) && InstrSupplied(f, b, i);
    if ins.Phi? {
      PhiResolved(f, decl, b, i);
      var r := RenamedInstr(f, b, i);
      assert forall k :: 0 <= k < |r.phis| ==> PhiEntryOk(Renamed(f), r.phis[k]);
    } else {
      OperandsResolved(f, decl, b, i, Operands(ins));
      OperandsOfRenamed(EnvAt(f, b, i), ins);
    }
  }

  lemma TermDone(f: Func, decl: map<Var, nat>, b: nat)
    requires PhiReady(f, decl) && b < |f.blocks|
    ensures var t := RenamedBlock(f, b).term;
            && AllValues(TermOperands(t)) && OperandsAvailable(Renamed(f), TermOperands(t), b, |f.blocks[b].code|)
            && Targets(t) == Targets(f.blocks[b].term)
            && forall o :: o in TermOperands(t) && o.Value? ==> o.id < f.lastValueId
  {
    assert TermScoped(f, decl, b) && TermSupplied(f, b);
    OperandsResolved(f, decl, b, |f.blocks[b].code|, TermOperands(f.blocks[b].term));
    TermOperandsOfRenamed(EnvOut(f, b), f.blocks[b].term);
  }

  /** Renaming yields strict SSA form. */
  lemma RenamedIsStrict(f: Func, decl: map<Var, nat>)
    requires PhiReady(f, decl)
    ensures StrictSsa(Renamed(f))
  {
    var r := Renamed(f);
    RenamedGraph(f);
    assert SingleProducers(r) by {
      forall d, b, i, c, j | Produces(r, b, i, d) && Produces(r, c, j, d) ensures b == c && i == j {
        RenamedProduces(f, b, i, d);
        RenamedProduces(f, c, j, d);
      }
    }
    forall b, i | 0 <= b < |r.blocks| && 0 <= i < |r.blocks[b].code|
      ensures ResolvedAt(r, b, i) && InstrSupplied(r, b, i)
    {
      InstrDone(f, decl, b, i);
    }
    forall b | 0 <= b < |r.blocks|
      ensures TermResolved(r, b) && BlockShaped(r, b) && TermSupplied(r, b)
    {
      TermDone(f, decl, b);
      RenamedBlockShaped(f, decl, b);
    }
  }

  lemma RenamedBlockShaped(f: Func, decl: map<Var, nat>, b: nat)
    requires PhiReady(f, decl) && b < |f.blocks|
    ensures BlockShaped(Renamed(f), b)
  {
    assert BlockShaped(f, b);
    TermDone(f, decl, b);
    var code := Renamed(f).blocks[b].code;
    forall i | 0 <= i < |code| ensures InstrShaped(Renamed(f), b, i) {
      InstrDone(f, decl, b, i);
    }
    forall i, j | 0 <= i < j < |code| && code[j].Phi? ensures code[i].Phi? {
      assert f.blocks[b].code[j].Phi?;
    }
  }
}
