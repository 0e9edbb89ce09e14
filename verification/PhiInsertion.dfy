/** Putting phis in front of blocks keeps a function well formed and does not change what it does. */
module PhiInsertion {
  import opened Wrappers
  import opened Graph
  import opened Hir
  import opened SsaForm
  import opened SsaCorrect

  // ----- the function with its phis is ready to be renamed -----

  lemma SameGraph(f: Func, f1: Func)
    requires PhisInserted(f, f1)
    ensures f1.Graph() == f.Graph()
    ensures forall v: Var :: DefBlocks(f1, v) == DefBlocks(f, v)
    ensures forall b: nat, v: Var :: NeedsPhi(f1, b, v) == NeedsPhi(f, b, v)
  {
    forall b | 0 <= b < |f.blocks|
      ensures f1.blocks[b].preds == f.blocks[b].preds && f1.blocks[b].succs == f.blocks[b].succs
      ensures f1.blocks[b].defs == f.blocks[b].defs
    {
      assert BlockExtended(f, f1, b);
    }
    assert f1.Graph().preds == f.Graph().preds;
    assert f1.Graph().succs == f.Graph().succs;
    forall v: Var ensures DefBlocks(f1, v) == DefBlocks(f, v) {}
  }

  /** Block b of f1: its new phis, then the code it had. */
  lemma BlockParts(f: Func, f1: Func, b: nat)
    requires PhisInserted(f, f1) && b < |f.blocks|
    ensures Shift(f, f1, b) >= 0
    ensures f1.blocks[b].preds == f.blocks[b].preds && f1.blocks[b].term == f.blocks[b].term
    ensures f1.blocks[b].succs == f.blocks[b].succs && f1.blocks[b].defs == f.blocks[b].defs
    ensures forall i :: 0 <= i < |f.blocks[b].code| ==> f1.blocks[b].code[i + Shift(f, f1, b)] == f.blocks[b].code[i]
    ensures forall i :: Shift(f, f1, b) <= i < |f1.blocks[b].code|
              ==> f1.blocks[b].code[i] == f.blocks[b].code[i - Shift(f, f1, b)]
    ensures forall i :: 0 <= i < Shift(f, f1, b) ==> IsNewPhi(f, f1.blocks[b].code[i], f1.lastValueId, b)
  {
    assert BlockExtended(f, f1, b);
    var k := Shift(f, f1, b);
    assert f1.blocks[b].code == f1.blocks[b].code[..k] + f.blocks[b].code;
  }

  lemma KeepsShape(f: Func, f1: Func)
    requires Shaped(f) && PhisInserted(f, f1)
    ensures Shaped(f1)
  {
    SameGraph(f, f1);
    forall b | 0 <= b < |f1.blocks| ensures BlockShaped(f1, b) {
      BlockParts(f, f1, b);
      assert BlockShaped(f, b);
      forall i | 0 <= i < |f1.blocks[b].code|
        ensures InstrShaped(f1, b, i)
      {
        if i < Shift(f, f1, b) {
          assert IsNewPhi(f, f1.blocks[b].code[i], f1.lastValueId, b);
        } else {
          assert InstrShaped(f, b, i - Shift(f, f1, b));
        }
      }
    }
  }

  lemma KeepsDefs(f: Func, f1: Func)
    requires DefsRecorded(f) && PhisInserted(f, f1)
    ensures DefsRecorded(f1)
  {
    forall b, v | 0 <= b < |f1.blocks|
      ensures v in f1.blocks[b].defs <==> Defines(f1.blocks[b].code, v)
    {
      BlockParts(f, f1, b);
      if Defines(f.blocks[b].code, v) {
        var i :| 0 <= i < |f.blocks[b].code| && Defined(f.blocks[b].code[i]) == Some(v);
        assert Defined(f1.blocks[b].code[i + Shift(f, f1, b)]) == Some(v);
      }
      if Defines(f1.blocks[b].code, v) {
        var i :| 0 <= i < |f1.blocks[b].code| && Defined(f1.blocks[b].code[i]) == Some(v);
        if i < Shift(f, f1, b) { assert IsNewPhi(f, f1.blocks[b].code[i], f1.lastValueId, b); }
      }
    }
  }

  lemma KeepsVisible(f: Func, f1: Func, decl: map<Var, nat>, v: Var, b: nat, i: nat)
    requires Ready(f, decl) && PhisInserted(f, f1)
    requires b < |f.blocks| && i <= |f.blocks[b].code| && Visible(f, decl, v, b, i)
    ensures Shift(f, f1, b) >= 0 && Visible(f1, decl, v, b, i + Shift(f, f1, b))
  {
    SameGraph(f, f1);
    BlockParts(f, f1, b);
    if !SDom(f.Graph(), decl[v], b) {
      var j :| 0 <= j < i && Defined(f.blocks[b].code[j]) == Some(v);
      assert Defined(f1.blocks[b].code[j + Shift(f, f1, b)]) == Some(v);
    }
  }

  /** A new phi can read its variable at the end of each predecessor. */
  lemma NewPhiVisible(f: Func, f1: Func, decl: map<Var, nat>, b: nat, i: nat)
    requires Ready(f, decl) && PhisInserted(f, f1) && b < |f.blocks| && i < Shift(f, f1, b)
    ensures PhiVisible(f1, decl, f1.blocks[b].code[i])
  {
    SameGraph(f, f1);
    BlockParts(f, f1, b);
    var ins := f1.blocks[b].code[i];
    var v := ins.phiVar.value;
    NeedsPhiDeclared(f, decl, b, v);
    NeedsPhiWhen(f, decl, b, v);
    forall e | e in ins.phis && e.pred < |f1.blocks| && e.value.VarRef?
      ensures Visible(f1, decl, e.value.sym, e.pred, |f1.blocks[e.pred].code|)
    {
      assert f.Graph().Edge(e.pred, b);
      SDomPred(f.Graph(), decl[v], e.pred, b);
      if decl[v] == e.pred {
        assert e.pred in DefBlocks(f, v) && Defines(f.blocks[e.pred].code, v);
        var j :| 0 <= j < |f.blocks[e.pred].code| && Defined(f.blocks[e.pred].code[j]) == Some(v);
        BlockParts(f, f1, e.pred);
        assert Defined(f1.blocks[e.pred].code[j + Shift(f, f1, e.pred)]) == Some(v);
      }
    }
  }

  lemma KeepsScopes(f: Func, f1: Func, decl: map<Var, nat>)
    requires Ready(f, decl) && PhisInserted(f, f1)
    ensures WellScoped(f1, decl)
  {
    SameGraph(f, f1);
    forall b, i | 0 <= b < |f1.blocks| && 0 <= i < |f1.blocks[b].code|
      ensures InstrScoped(f1, decl, b, i)
    {
      BlockParts(f, f1, b);
      var k := Shift(f, f1, b);
      var ins := f1.blocks[b].code[i];
      if i < k {
        NewPhiVisible(f, f1, decl, b, i);
      } else {
        assert InstrScoped(f, decl, b, i - k);
        forall o | o in Operands(ins) && o.VarRef? ensures Visible(f1, decl, o.sym, b, i) {
          KeepsVisible(f, f1, decl, o.sym, b, i - k);
        }
        OldPhiVisible(f, f1, decl, ins);
      }
    }
    forall b | 0 <= b < |f1.blocks|
      ensures TermScoped(f1, decl, b)
    {
      BlockParts(f, f1, b);
      assert TermScoped(f, decl, b);
      forall o | o in TermOperands(f1.blocks[b].term) && o.VarRef?
        ensures Visible(f1, decl, o.sym, b, |f1.blocks[b].code|)
      {
        KeepsVisible(f, f1, decl, o.sym, b, |f.blocks[b].code|);
      }
    }
  }

  lemma OldPhiVisible(f: Func, f1: Func, decl: map<Var, nat>, ins: Instr)
    requires Ready(f, decl) && PhisInserted(f, f1) && PhiVisible(f, decl, ins)
    ensures PhiVisible(f1, decl, ins)
  {
    if ins.Phi? {
      forall e | e in ins.phis && e.pred < |f1.blocks| && e.value.VarRef?
        ensures Visible(f1, decl, e.value.sym, e.pred, |f1.blocks[e.pred].code|)
      {
        KeepsVisible(f, f1, decl, e.value.sym, e.pred, |f.blocks[e.pred].code|);
      }
    }
  }

  lemma KeepsAvailable(f: Func, f1: Func, d: Val, b: nat, i: nat)
    requires PhisInserted(f, f1) && b < |f.blocks| && Available(f, d, b, i)
    ensures Shift(f, f1, b) >= 0 && Available(f1, d, b, i + Shift(f, f1, b))
  {
    SameGraph(f, f1);
    var c: nat, j: nat :| Produces(f, c, j, d) && ((c == b && j < i) || SDom(f.Graph(), c, b));
    BlockParts(f, f1, c);
    BlockParts(f, f1, b);
    assert Produces(f1, c, j + Shift(f, f1, c), d);
  }

  lemma KeepsProduced(f: Func, f1: Func)
    requires ValuesProduced(f) && PhisInserted(f, f1)
    ensures ValuesProduced(f1)
  {
    forall b, i | 0 <= b < |f1.blocks| && 0 <= i < |f1.blocks[b].code|
      ensures InstrSupplied(f1, b, i)
    {
      BlockParts(f, f1, b);
      var k := Shift(f, f1, b);
      var ins := f1.blocks[b].code[i];
      if i >= k {
        assert InstrSupplied(f, b, i - k);
        forall o | o in Operands(ins) && o.Value? ensures Available(f1, o.id, b, i) {
          KeepsAvailable(f, f1, o.id, b, i - k);
        }
        OldPhiAvailable(f, f1, ins);
      }
    }
    forall b | 0 <= b < |f1.blocks|
      ensures TermSupplied(f1, b)
    {
      BlockParts(f, f1, b);
      assert TermSupplied(f, b);
      forall o | o in TermOperands(f1.blocks[b].term) && o.Value?
        ensures Available(f1, o.id, b, |f1.blocks[b].code|)
      {
        KeepsAvailable(f, f1, o.id, b, |f.blocks[b].code|);
      }
    }
  }

  lemma OldPhiAvailable(f: Func, f1: Func, ins: Instr)
    requires PhisInserted(f, f1) && PhiAvailable(f, ins)
    ensures PhiAvailable(f1, ins)
  {
    if ins.Phi? {
      forall e | e in ins.phis && e.pred < |f1.blocks| && e.value.Value?
        ensures Available(f1, e.value.id, e.pred, |f1.blocks[e.pred].code|)
      {
        KeepsAvailable(f, f1, e.value.id, e.pred, |f.blocks[e.pred].code|);
      }
    }
  }

  /** After phi insertion everything renaming relies on holds. */
  lemma InsertionPrepares(f: Func, f1: Func, decl: map<Var, nat>)
    requires Ready(f, decl) && PhisInserted(f, f1)
    ensures PhiReady(f1, decl)
  {
    SameGraph(f, f1);
    KeepsShape(f, f1);
    KeepsDefs(f, f1);
    KeepsScopes(f, f1, decl);
    KeepsProduced(f, f1);
    forall b | 0 <= b < |f1.blocks| ensures BlockPhiReady(f1, b) { NewPhisReady(f, f1, b); }
  }

  /** The code a block had contains no phi that stands for a variable. */
  lemma OldPhisPlain(f: Func, f1: Func, b: nat)
    requires NoVarPhis(f) && PhisInserted(f, f1) && b < |f.blocks|
    ensures forall i :: 0 <= i < |f1.blocks[b].code| && IsVarPhi(f1, b, i) ==> i < Shift(f, f1, b)
  {
    BlockParts(f, f1, b);
    forall i | Shift(f, f1, b) <= i < |f1.blocks[b].code| ensures !IsVarPhi(f1, b, i) {
      assert !IsVarPhi(f, b, i - Shift(f, f1, b));
    }
  }

  lemma NewPhiReady(f: Func, f1: Func, b: nat, i: nat)
    requires PhisInserted(f, f1) && b < |f.blocks| && i < Shift(f, f1, b)
    ensures IsVarPhi(f1, b, i) && IsPlaceholderPhi(f1, b, f1.blocks[b].code[i])
    ensures NeedsPhi(f1, b, f1.blocks[b].code[i].phiVar.value)
  {
    BlockParts(f, f1, b);
    assert IsNewPhi(f, f1.blocks[b].code[i], f1.lastValueId, b);
    SameGraph(f, f1);
  }

  lemma NeededPhisPresent(f: Func, f1: Func, b: nat)
    requires PhisInserted(f, f1) && b < |f.blocks|
    ensures forall v :: NeedsPhi(f1, b, v) ==> HasPhi(f1, b, v)
  {
    SameGraph(f, f1);
    assert BlockExtended(f, f1, b);
  }

  lemma NewPhisReady(f: Func, f1: Func, b: nat)
    requires NoVarPhis(f) && PhisInserted(f, f1) && b < |f.blocks|
    ensures BlockPhiReady(f1, b)
  {
    OldPhisPlain(f, f1, b);
    NeededPhisPresent(f, f1, b);
    var code := f1.blocks[b].code;
    forall i | 0 <= i < |code| && IsVarPhi(f1, b, i)
      ensures i < Shift(f, f1, b) && IsPlaceholderPhi(f1, b, code[i]) && NeedsPhi(f1, b, code[i].phiVar.value)
    {
      NewPhiReady(f, f1, b, i);
    }
    forall i, j | 0 <= i < j < |code| && IsVarPhi(f1, b, j)
      ensures IsVarPhi(f1, b, i) && code[i].phiVar != code[j].phiVar
    {
      NewPhiReady(f, f1, b, i);
      assert BlockExtended(f, f1, b);
    }
  }

  // ----- and does the same as before -----

  /** Same variables and output; values agree but for the new phis' own. */
  ghost predicate FramesAgree(bound: nat, fr: Frame, fr1: Frame) {
    && fr1.vars == fr.vars && fr1.out == fr.out
    && forall d :: 0 <= d < bound ==> Get(fr1.temps, d) == Get(fr.temps, d)
  }

  ghost predicate StatesAgree(bound: nat, s: State, s1: State) {
    match s
    case At(b, fr) => s1.At? && s1.block == b && FramesAgree(bound, fr, s1.frame)
    case Stopped(_, _) => s1 == s
  }

  ghost predicate ResultsAgree(bound: nat, r: BodyResult, r1: BodyResult) {
    match r
    case Done(fr) => r1.Done? && FramesAgree(bound, fr, r1.frame)
    case Trap(_) => r1 == r
  }

  lemma OperandAgrees(bound: nat, fr: Frame, fr1: Frame, o: Operand)
    requires FramesAgree(bound, fr, fr1) && (o.Value? ==> o.id < bound)
    ensures OperandValue(fr1, o) == OperandValue(fr, o)
  {
  }

  lemma WriteAgrees(bound: nat, fr: Frame, fr1: Frame, dst: Val, sym: Option<Var>, x: int)
    requires FramesAgree(bound, fr, fr1)
    ensures FramesAgree(bound, Write(fr, dst, sym, x), Write(fr1, dst, sym, x))
  {
    forall d | 0 <= d < bound
      ensures Get(Write(fr1, dst, sym, x).temps, d) == Get(Write(fr, dst, sym, x).temps, d)
    {
      assert Get(fr1.temps, d) == Get(fr.temps, d);
    }
  }

  lemma ExecAgrees(bound: nat, i: Instr, fr: Frame, fr1: Frame, params: seq<int>)
    requires FramesAgree(bound, fr, fr1) && ValuesBelow(i, bound)
    ensures ResultsAgree(bound, Exec(i, fr, params), Exec(i, fr1, params))
  {
    if i.Compute? {
      forall k | 0 <= k < |i.args| ensures OperandValues(fr1, i.args)[k] == OperandValues(fr, i.args)[k] {
        assert i.args[k] in Operands(i);
        OperandAgrees(bound, fr, fr1, i.args[k]);
      }
      assert OperandValues(fr1, i.args) == OperandValues(fr, i.args);
      var r := Apply(i.op, OperandValues(fr, i.args), params);
      if r.Some? { WriteAgrees(bound, fr, fr1, i.dst, i.defSym, r.value); }
    } else if i.Print? {
      assert i.arg in Operands(i);
    } else if i.Bind? {
      assert i.source in Operands(i);
    }
  }

  lemma {:induction false} CodeAgrees(f: Func, f1: Func, b: nat, n: nat, fr: Frame, fr1: Frame, params: seq<int>)
    requires Shaped(f) && PhisInserted(f, f1) && b < |f.blocks| && n <= |f.blocks[b].code|
    requires FramesAgree(f.lastValueId, fr, fr1)
    ensures Shift(f, f1, b) >= 0
    ensures ResultsAgree(f.lastValueId, RunCode(f.blocks[b].code, n, fr, params),
                                        RunCode(f1.blocks[b].code, n + Shift(f, f1, b), fr1, params))
  {
    BlockParts(f, f1, b);
    if n == 0 {
      PhisDoNothing(f1.blocks[b].code, Shift(f, f1, b), fr1, params);
    } else {
      CodeAgrees(f, f1, b, n - 1, fr, fr1, params);
      assert BlockShaped(f, b) && InstrShaped(f, b, n - 1);
      var r := RunCode(f.blocks[b].code, n - 1, fr, params);
      var r1 := RunCode(f1.blocks[b].code, n - 1 + Shift(f, f1, b), fr1, params);
      assert f1.blocks[b].code[n - 1 + Shift(f, f1, b)] == f.blocks[b].code[n - 1];
      if r.Done? {
        ExecAgrees(f.lastValueId, f.blocks[b].code[n - 1], r.frame, r1.frame, params);
      }
    }
  }

  lemma {:induction false} ChosenBelow(phis: seq<Incoming>, from: nat, bound: nat)
    requires 0 < bound && forall k :: 0 <= k < |phis| && phis[k].value.Value? ==> phis[k].value.id < bound
    ensures Chosen(phis, from).Value? ==> Chosen(phis, from).id < bound
  {
    if phis != [] && phis[0].pred != from { ChosenBelow(phis[1..], from, bound); }
  }

  lemma {:induction false} NewPhisOnEdge(f: Func, f1: Func, x: nat, n: nat, p: nat, fr: Frame, fr1: Frame)
    requires PhisInserted(f, f1) && x < |f.blocks| && n <= Shift(f, f1, x)
    requires FramesAgree(f.lastValueId, fr, fr1)
    ensures FramesAgree(f.lastValueId, fr, TakeEdge(f1.blocks[x].code, n, p, fr1))
  {
    if n > 0 {
      NewPhisOnEdge(f, f1, x, n - 1, p, fr, fr1);
      BlockParts(f, f1, x);
      assert IsNewPhi(f, f1.blocks[x].code[n - 1], f1.lastValueId, x);
    }
  }

  lemma {:induction false} EdgeCodeAgrees(f: Func, f1: Func, x: nat, n: nat, p: nat, fr: Frame, fr1: Frame)
    requires Shaped(f) && PhisInserted(f, f1) && x < |f.blocks| && n <= |f.blocks[x].code|
    requires FramesAgree(f.lastValueId, fr, fr1)
    ensures Shift(f, f1, x) >= 0
    ensures FramesAgree(f.lastValueId, TakeEdge(f.blocks[x].code, n, p, fr),
                                       TakeEdge(f1.blocks[x].code, n + Shift(f, f1, x), p, fr1))
  {
    BlockParts(f, f1, x);
    if n == 0 {
      NewPhisOnEdge(f, f1, x, Shift(f, f1, x), p, fr, fr1);
    } else {
      EdgeCodeAgrees(f, f1, x, n - 1, p, fr, fr1);
      var ins := f.blocks[x].code[n - 1];
      assert f1.blocks[x].code[n - 1 + Shift(f, f1, x)] == ins;
      if ins.Phi? {
        assert BlockShaped(f, x) && InstrShaped(f, x, n - 1);
        ChosenBelow(ins.phis, p, f.lastValueId);
        OperandAgrees(f.lastValueId, fr, fr1, Chosen(ins.phis, p));
        WriteAgrees(f.lastValueId, TakeEdge(f.blocks[x].code, n - 1, p, fr),
                    TakeEdge(f1.blocks[x].code, n - 1 + Shift(f, f1, x), p, fr1),
                    ins.dst, ins.defSym, OperandValue(fr, Chosen(ins.phis, p)));
      }
    }
  }

  lemma InsertionStep(f: Func, f1: Func, params: seq<int>, s: State, s1: State)
    requires Shaped(f) && PhisInserted(f, f1) && StatesAgree(f.lastValueId, s, s1)
    ensures StatesAgree(f.lastValueId, Step(f, params, s), Step(f1, params, s1))
  {
    if s.At? && s.block < |f.blocks| {
      var b := s.block;
      CodeAgrees(f, f1, b, |f.blocks[b].code|, s.frame, s1.frame, params);
      BlockParts(f, f1, b);
      assert BlockShaped(f, b);
      var r := RunCode(f.blocks[b].code, |f.blocks[b].code|, s.frame, params);
      var r1 := RunCode(f1.blocks[b].code, |f1.blocks[b].code|, s1.frame, params);
      if r.Done? {
        var t := f.blocks[b].term;
        forall o | o in TermOperands(t) ensures OperandValue(r1.frame, o) == OperandValue(r.frame, o) {
          OperandAgrees(f.lastValueId, r.frame, r1.frame, o);
        }
        forall x | x in Targets(t) && x < |f.blocks|
          ensures StatesAgree(f.lastValueId, Enter(f, b, x, r.frame), Enter(f1, b, x, r1.frame))
        {
          EdgeCodeAgrees(f, f1, x, |f.blocks[x].code|, b, r.frame, r1.frame);
        }
        match t {
          case Branch(c, x, y) => assert c in TermOperands(t) && x in Targets(t) && y in Targets(t);
          case Jump(x) => assert x in Targets(t);
          case Return(Some(o)) => assert o in TermOperands(t);
          case _ =>
        }
      }
    }
  }

  /** Phi insertion preserves meaning: the same blocks in the same order, the same variables and output. */
  lemma {:induction false} InsertionPreservesRuns(f: Func, f1: Func, params: seq<int>, n: nat)
    requires Shaped(f) && PhisInserted(f, f1)
    ensures StatesAgree(f.lastValueId, Run(f, params, n), Run(f1, params, n))
  {
    if n > 0 {
      InsertionPreservesRuns(f, f1, params, n - 1);
      InsertionStep(f, f1, params, Run(f, params, n - 1), Run(f1, params, n - 1));
    }
  }
}
