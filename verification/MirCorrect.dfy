/** Taking a function out of SSA form preserves meaning, critical edges included. */
module MirCorrect {
  import opened Wrappers
  import opened Graph
  import opened Hir
  import opened SsaForm
  import opened SsaCorrect
  import opened SsaStrict
  import opened ParallelCopy
  import opened MirLowering
  import Mir

  ghost predicate HasPhis(f: Func, b: nat) {
    b < |f.blocks| && exists i :: 0 <= i < |f.blocks[b].code| && f.blocks[b].code[i].Phi?
  }

  /** A block that branches does not branch to a phi block above itself. Such a block would be reached with
      the phi's value still in use in the block's other successor. */
  ghost predicate NoBranchBack(f: Func) {
    forall b: nat, x: nat :: b < |f.blocks| && f.blocks[b].term.Branch? && x in Targets(f.blocks[b].term)
      && HasPhis(f, x)
      ==> !Dom(f.Graph(), x, b)
  }

  ghost predicate Agree(f: Func, b: nat, i: nat, fr: Frame, regs: Mir.Regs) {
    forall d :: Available(f, d, b, i) ==> Get(regs, d) == Get(fr.temps, d)
  }

  // ----- inside a block -----

  lemma OperandMatches(f: Func, b: nat, i: nat, fr: Frame, regs: Mir.Regs, o: Operand)
    requires Agree(f, b, i, fr, regs) && o.Value? && Available(f, o.id, b, i)
    ensures Get(regs, Id(o)) == OperandValue(fr, o) == Mir.OperandIn(regs, o)
  {
  }

  lemma ValuesMatch(f: Func, b: nat, i: nat, fr: Frame, regs: Mir.Regs, os: seq<Operand>)
    requires Agree(f, b, i, fr, regs) && AllValues(os) && OperandsAvailable(f, os, b, i)
    ensures Mir.Values(regs, Ids(os)) == OperandValues(fr, os)
  {
    forall k | 0 <= k < |os| ensures Mir.Values(regs, Ids(os))[k] == OperandValues(fr, os)[k] {
      assert os[k] in os;
      OperandMatches(f, b, i, fr, regs, os[k]);
    }
  }

  /** What is available after an instruction was available before it or is what it produced. */
  lemma AvailableNext(f: Func, b: nat, i: nat, d: Val)
    requires b < |f.blocks| && i < |f.blocks[b].code| && Available(f, d, b, i + 1)
    ensures Available(f, d, b, i) || Dst(f.blocks[b].code[i]) == Some(d)
  {
    var c: nat, j: nat :| Produces(f, c, j, d) && ((c == b && j < i + 1) || SDom(f.Graph(), c, b));
  }

  lemma ExecMatches(f: Func, b: nat, i: nat, fr: Frame, regs: Mir.Regs, params: seq<int>)
    requires StrictSsa(f) && b < |f.blocks| && i < |f.blocks[b].code| && !f.blocks[b].code[i].Phi?
    requires Agree(f, b, i, fr, regs) && HasMachineForm(f.blocks[b].code[i])
    ensures var r := Exec(f.blocks[b].code[i], fr, params);
            var low := LowerInstr(f.blocks[b].code[i]);
            var m := Mir.RunCode(low, |low|, regs, fr.out, params);
            match r
            case Done(fr') => m.Done? && m.out == fr'.out && Agree(f, b, i + 1, fr', m.regs)
            case Trap(out) => m == Mir.Trap(out)
  {
    var ins := f.blocks[b].code[i];
    assert ResolvedAt(f, b, i) && InstrSupplied(f, b, i);
    var r := Exec(ins, fr, params);
    var low := LowerInstr(ins);
    if ins.Compute? {
      ValuesMatch(f, b, i, fr, regs, ins.args);
      assert Mir.RunCode(low, 0, regs, fr.out, params) == Mir.Done(regs, fr.out);
    } else if ins.Print? {
      assert ins.arg in Operands(ins);
      OperandMatches(f, b, i, fr, regs, ins.arg);
      assert Mir.RunCode(low, 0, regs, fr.out, params) == Mir.Done(regs, fr.out);
    }
    if r.Done? {
      var m := Mir.RunCode(low, |low|, regs, fr.out, params);
      forall d | Available(f, d, b, i + 1) ensures Get(m.regs, d) == Get(r.frame.temps, d) {
        AvailableNext(f, b, i, d);
      }
    }
  }

  lemma {:induction false} RunAppend(a: seq<Mir.Instr>, c: seq<Mir.Instr>, n: nat, regs: Mir.Regs, out: seq<int>,
                                     params: seq<int>)
    requires n <= |c|
    ensures Mir.RunCode(a + c, |a| + n, regs, out, params) ==
            match Mir.RunCode(a, |a|, regs, out, params)
            case Trap(o) => Mir.Trap(o)
            case Done(r, o) => Mir.RunCode(c, n, r, o, params)
  {
    if n == 0 {
      RunPrefix(a, a + c, |a|, regs, out, params);
    } else {
      RunAppend(a, c, n - 1, regs, out, params);
      assert (a + c)[|a| + n - 1] == c[n - 1];
    }
  }

  lemma {:induction false} RunPrefix(a: seq<Mir.Instr>, c: seq<Mir.Instr>, n: nat, regs: Mir.Regs, out: seq<int>,
                                     params: seq<int>)
    requires n <= |a| <= |c| && c[..|a|] == a
    ensures Mir.RunCode(c, n, regs, out, params) == Mir.RunCode(a, n, regs, out, params)
  {
    if n > 0 { RunPrefix(a, c, n - 1, regs, out, params); }
  }

  ghost predicate BodyMatches(f: Func, b: nat, n: nat, r: BodyResult, m: Mir.BodyResult) {
    match r
    case Done(fr) => m.Done? && m.out == fr.out && Agree(f, b, n, fr, m.regs)
    case Trap(out) => m == Mir.Trap(out)
  }

  lemma PhisOnly(f: Func, b: nat, n: nat, fr: Frame, regs: Mir.Regs, params: seq<int>)
    requires StrictSsa(f) && b < |f.blocks| && n == PhiCount(f.blocks[b].code, |f.blocks[b].code|)
    requires Agree(f, b, n, fr, regs)
    ensures var low := LowerCode(f.blocks[b].code, n);
            BodyMatches(f, b, n, RunCode(f.blocks[b].code, n, fr, params),
                        Mir.RunCode(low, |low|, regs, fr.out, params))
  {
    var code := f.blocks[b].code;
    assert BlockShaped(f, b);
    PhiPrefix(code, |code|);
    PhisDoNothing(code, n, fr, params);
    PhisLowerToNothing(code, n);
  }

  lemma {:induction false} PhisLowerToNothing(code: seq<Instr>, n: nat)
    requires n <= |code| && forall i :: 0 <= i < n ==> code[i].Phi?
    ensures LowerCode(code, n) == []
  {
    if n > 0 { PhisLowerToNothing(code, n - 1); }
  }

  lemma BodyNext(f: Func, b: nat, n: nat, fr: Frame, regs: Mir.Regs, params: seq<int>)
    requires StrictSsa(f) && b < |f.blocks| && n < |f.blocks[b].code| && !f.blocks[b].code[n].Phi?
    requires HasMachineForm(f.blocks[b].code[n])
    requires var low := LowerCode(f.blocks[b].code, n);
             BodyMatches(f, b, n, RunCode(f.blocks[b].code, n, fr, params),
                         Mir.RunCode(low, |low|, regs, fr.out, params))
    ensures var low := LowerCode(f.blocks[b].code, n + 1);
            BodyMatches(f, b, n + 1, RunCode(f.blocks[b].code, n + 1, fr, params),
                        Mir.RunCode(low, |low|, regs, fr.out, params))
  {
    var code := f.blocks[b].code;
    var low := LowerCode(code, n);
    var next := LowerInstr(code[n]);
    RunAppend(low, next, |next|, regs, fr.out, params);
    var r := RunCode(code, n, fr, params);
    var m := Mir.RunCode(low, |low|, regs, fr.out, params);
    if r.Done? { ExecMatches(f, b, n, r.frame, m.regs, params); }
  }

  /** The lowered body computes the same values and output. */
  lemma {:induction false} BodyLowered(f: Func, b: nat, n: nat, fr: Frame, regs: Mir.Regs, params: seq<int>)
    requires StrictSsa(f) && b < |f.blocks| && BlockHasMachineForm(f, b)
    requires PhiCount(f.blocks[b].code, |f.blocks[b].code|) <= n <= |f.blocks[b].code|
    requires Agree(f, b, PhiCount(f.blocks[b].code, |f.blocks[b].code|), fr, regs)
    ensures var low := LowerCode(f.blocks[b].code, n);
            BodyMatches(f, b, n, RunCode(f.blocks[b].code, n, fr, params),
                        Mir.RunCode(low, |low|, regs, fr.out, params))
    decreases n
  {
    var code := f.blocks[b].code;
    if n == PhiCount(code, |code|) {
      PhisOnly(f, b, n, fr, regs, params);
    } else {
      assert !code[n - 1].Phi? by {
        assert BlockShaped(f, b);
        PhiPrefix(code, |code|);
      }
      BodyLowered(f, b, n - 1, fr, regs, params);
      BodyNext(f, b, n - 1, fr, regs, params);
    }
  }

  // ----- moves -----

  lemma {:induction false} MovesRun(code: seq<Mir.Instr>, k: nat, n: nat, regs: Mir.Regs, out: seq<int>,
                                    params: seq<int>)
    requires MovesFrom(code, k) && k <= n <= |code|
    ensures Mir.RunCode(code[k..], n - k, regs, out, params) == Mir.Done(RunMoves(MovesAt(code, k), n - k, regs), out)
  {
    if n > k { MovesRun(code, k, n - 1, regs, out, params); }
  }

  lemma PerformedCopies(f: Func, b: nat, fr: Frame, regs: Mir.Regs, moves: seq<Copy>)
    requires b < |f.blocks| && Agree(f, b, |f.blocks[b].code|, fr, regs)
    requires Performs(moves, CopiesFrom(f, b), f.lastValueId)
    ensures Copied(f, b, fr, RunMoves(moves, |moves|, regs))
  {
    assert CopiedFrom(f, b, fr, regs, RunMoves(moves, |moves|, regs));
  }

  /** The tail of a lowered block makes the block's copies at once. */
  lemma TailCopies(f: Func, b: nat, code: seq<Mir.Instr>, k: nat, fr: Frame, regs: Mir.Regs, params: seq<int>)
    requires b < |f.blocks| && Agree(f, b, |f.blocks[b].code|, fr, regs)
    requires MovesFrom(code, k) && Performs(MovesAt(code, k), CopiesFrom(f, b), f.lastValueId)
    ensures BlockMatches(f, b, Done(fr), Mir.RunCode(code[k..], |code| - k, regs, fr.out, params))
  {
    MovesRun(code, k, |code|, regs, fr.out, params);
    PerformedCopies(f, b, fr, regs, MovesAt(code, k));
  }

  ghost predicate BlockMatches(f: Func, b: nat, r: BodyResult, mr: Mir.BodyResult)
    requires b < |f.blocks|
  {
    match r
    case Trap(o) => mr == Mir.Trap(o)
    case Done(fr) => mr.Done? && mr.out == fr.out && Copied(f, b, fr, mr.regs)
  }

  /** A whole lowered block: the body, then all copies at once. */
  lemma BlockRuns(f: Func, m: Mir.Func, b: nat, fr: Frame, regs: Mir.Regs, params: seq<int>)
    requires StrictSsa(f) && IsLowering(f, m) && b < |f.blocks|
    requires Agree(f, b, PhiCount(f.blocks[b].code, |f.blocks[b].code|), fr, regs)
    ensures BlockMatches(f, b, RunCode(f.blocks[b].code, |f.blocks[b].code|, fr, params),
                               Mir.RunCode(m.blocks[b].code, |m.blocks[b].code|, regs, fr.out, params))
  {
    assert BlockLowered(f, m, b) && BlockHasMachineForm(f, b);
    BodyLowered(f, b, |f.blocks[b].code|, fr, regs, params);
    TailRuns(f, m, b, RunCode(f.blocks[b].code, |f.blocks[b].code|, fr, params), regs, fr.out, params);
  }

  lemma TailRuns(f: Func, m: Mir.Func, b: nat, r: BodyResult, regs: Mir.Regs, out: seq<int>, params: seq<int>)
    requires b < |f.blocks| == |m.blocks| && BlockLowered(f, m, b)
    requires var low := LowerCode(f.blocks[b].code, |f.blocks[b].code|);
             BodyMatches(f, b, |f.blocks[b].code|, r, Mir.RunCode(low, |low|, regs, out, params))
    ensures BlockMatches(f, b, r, Mir.RunCode(m.blocks[b].code, |m.blocks[b].code|, regs, out, params))
  {
    var low := LowerCode(f.blocks[b].code, |f.blocks[b].code|);
    var tail := m.blocks[b].code[|low|..];
    assert m.blocks[b].code == low + tail;
    RunAppend(low, tail, |tail|, regs, out, params);
    var mr := Mir.RunCode(low, |low|, regs, out, params);
    if r.Done? { TailCopies(f, b, m.blocks[b].code, |low|, r.frame, mr.regs, params); }
  }

  /** The registers after b's copies, made at once from registers that agree with the frame. */
  ghost predicate Copied(f: Func, b: nat, fr: Frame, after: Mir.Regs)
    requires b < |f.blocks|
  {
    exists regs :: CopiedFrom(f, b, fr, regs, after)
  }

  ghost predicate CopiedFrom(f: Func, b: nat, fr: Frame, regs: Mir.Regs, after: Mir.Regs)
    requires b < |f.blocks|
  {
    && Agree(f, b, |f.blocks[b].code|, fr, regs)
    && forall k :: 0 <= k < f.lastValueId ==> Get(after, k) == AtOnce(CopiesFrom(f, b), regs, k)
  }

  /** A value that is available at the end of b, and is not the destination of a phi in a successor, survives. */
  lemma Survives(f: Func, b: nat, d: Val, fr: Frame, after: Mir.Regs)
    requires StrictSsa(f) && b < |f.blocks| && Copied(f, b, fr, after)
    requires Available(f, d, b, |f.blocks[b].code|)
    requires forall x: nat, i: nat :: x in f.blocks[b].succs && Produces(f, x, i, d) ==> !f.blocks[x].code[i].Phi?
    ensures Get(after, d) == Get(fr.temps, d)
  {
    AvailableBelowBound(f, d, b, |f.blocks[b].code|);
    var regs :| CopiedFrom(f, b, fr, regs, after);
    var copies := CopiesFrom(f, b);
    forall k | 0 <= k < |copies| ensures copies[k].dst != d {
      var x, i := CopySource(f, b, copies[k]);
      assert Produces(f, x, i, copies[k].dst);
    }
    AtOnceMiss(copies, regs, d);
  }

  /** Every copy made at the end of b is for a phi in one of b's successors. */
  lemma CopySource(f: Func, b: nat, c: Copy) returns (x: nat, i: nat)
    requires Shaped(f) && c in CopiesFrom(f, b) && b < |f.blocks|
    ensures CopyOf(f, x, i, b, c) && x in f.blocks[b].succs
  {
    CopiesUpToOrigin(f, |f.blocks|, b, c);
    x, i :| x < |f.blocks| && CopyOf(f, x, i, b, c);
    assert BlockShaped(f, x) && InstrShaped(f, x, i);
    assert f.Graph().Edge(b, x);
    assert x in f.Graph().succs[b];
  }

  lemma {:induction false} ChosenEntry(phis: seq<Incoming>, preds: seq<nat>, p: nat) returns (k: nat)
    requires |phis| == |preds| && (forall k :: 0 <= k < |preds| ==> phis[k].pred == preds[k]) && p in preds
    ensures k < |phis| && phis[k].pred == p && Chosen(phis, p) == phis[k].value
  {
    if phis[0].pred == p {
      k := 0;
    } else {
      k := ChosenEntry(phis[1..], preds[1..], p);
      k := k + 1;
    }
  }

  /** A phi of a successor gets the value its entry for b had at the end of b. */
  lemma PhiCopied(f: Func, b: nat, x: nat, i: nat, fr: Frame, after: Mir.Regs)
    requires StrictSsa(f) && b < |f.blocks| && Copied(f, b, fr, after)
    requires x < |f.blocks| && x in f.blocks[b].succs && i < |f.blocks[x].code| && f.blocks[x].code[i].Phi?
    ensures Get(after, f.blocks[x].code[i].dst) == OperandValue(fr, Chosen(f.blocks[x].code[i].phis, b))
  {
    var ins := f.blocks[x].code[i];
    var regs :| CopiedFrom(f, b, fr, regs, after);
    assert BlockShaped(f, x) && InstrShaped(f, x, i);
    assert x in f.Graph().succs[b];
    assert f.Graph().Edge(b, x);
    var k := ChosenEntry(ins.phis, f.blocks[x].preds, b);
    var o := ins.phis[k].value;
    assert ResolvedAt(f, x, i) && InstrSupplied(f, x, i);
    assert ins.phis[k] in ins.phis;
    var c := Copy(ins.dst, Id(o));
    var copies := CopiesFrom(f, b);
    assert CopyOf(f, x, i, b, c);
    CopiesUpToOrigin(f, |f.blocks|, b, c);
    CopiesDistinct(f, |f.blocks|, b);
    AtOnceMember(copies, regs, c);
    OperandMatches(f, b, |f.blocks[b].code|, fr, regs, o);
  }

  // ----- edges -----

  /** After the edge a phi's destination holds the chosen operand; other values are untouched. */
  lemma {:induction false} EdgeWrites(f: Func, x: nat, n: nat, p: nat, fr: Frame, d: Val)
    requires Shaped(f) && x < |f.blocks| && n <= |f.blocks[x].code|
    ensures var after := TakeEdge(f.blocks[x].code, n, p, fr);
            && (forall i :: 0 <= i < n && Produces(f, x, i, d) && f.blocks[x].code[i].Phi?
                  ==> Get(after.temps, d) == OperandValue(fr, Chosen(f.blocks[x].code[i].phis, p)))
            && ((forall i :: 0 <= i < n && Produces(f, x, i, d) ==> !f.blocks[x].code[i].Phi?)
                  ==> Get(after.temps, d) == Get(fr.temps, d))
  {
    if n > 0 {
      EdgeWrites(f, x, n - 1, p, fr, d);
      var ins := f.blocks[x].code[n - 1];
      if ins.Phi? && ins.dst == d {
        assert Produces(f, x, n - 1, d);
      }
    }
  }

  lemma {:induction false} EdgeKeepsOutput(code: seq<Instr>, n: nat, p: nat, fr: Frame)
    requires n <= |code|
    ensures TakeEdge(code, n, p, fr).out == fr.out
  {
    if n > 0 { EdgeKeepsOutput(code, n - 1, p, fr); }
  }

  /** A value available at the start of successor x and produced above x is available at the end of b, and
      no copy made at the end of b overwrites it. */
  lemma FromAbove(f: Func, b: nat, x: nat, c: nat, j: nat, d: Val)
    requires StrictSsa(f) && NoBranchBack(f) && b < |f.blocks| && x in Targets(f.blocks[b].term)
    requires Produces(f, c, j, d) && SDom(f.Graph(), c, x)
    ensures Available(f, d, b, |f.blocks[b].code|)
    ensures forall y: nat, i: nat :: y in f.blocks[b].succs && Produces(f, y, i, d) ==> !f.blocks[y].code[i].Phi?
  {
    assert BlockShaped(f, b);
    assert x in f.Graph().succs[b];
    assert f.Graph().Edge(b, x);
    SDomPred(f.Graph(), c, b, x);
    forall y: nat, i: nat | y in f.blocks[b].succs && Produces(f, y, i, d) ensures !f.blocks[y].code[i].Phi? {
      if f.blocks[y].code[i].Phi? {
        assert y == c;
        assert HasPhis(f, y);
      }
    }
  }

  lemma EdgeMatches(f: Func, b: nat, x: nat, fr: Frame, after: Mir.Regs)
    requires StrictSsa(f) && NoBranchBack(f) && b < |f.blocks| && x in Targets(f.blocks[b].term)
    requires Copied(f, b, fr, after)
    ensures x < |f.blocks|
    ensures Agree(f, x, PhiCount(f.blocks[x].code, |f.blocks[x].code|),
                  TakeEdge(f.blocks[x].code, |f.blocks[x].code|, b, fr), after)
  {
    assert BlockShaped(f, b);
    assert x in f.Graph().succs[b];
    assert f.Graph().Edge(b, x);
    var code := f.blocks[x].code;
    var k := PhiCount(code, |code|);
    assert BlockShaped(f, x);
    PhiPrefix(code, |code|);
    forall d | Available(f, d, x, k)
      ensures Get(after, d) == Get(TakeEdge(code, |code|, b, fr).temps, d)
    {
      EdgeWrites(f, x, |code|, b, fr, d);
      var c: nat, j: nat :| Produces(f, c, j, d) && ((c == x && j < k) || SDom(f.Graph(), c, x));
      if c == x {
        PhiCopied(f, b, x, j, fr, after);
      } else {
        FromAbove(f, b, x, c, j, d);
        Survives(f, b, d, fr, after);
      }
    }
  }

  /** The terminator's operand is not overwritten by the copies made before it. */
  lemma TermOperandSurvives(f: Func, b: nat, o: Operand, fr: Frame, after: Mir.Regs)
    requires StrictSsa(f) && NoBranchBack(f) && b < |f.blocks| && o in TermOperands(f.blocks[b].term)
    requires Copied(f, b, fr, after)
    ensures Mir.OperandIn(after, o) == OperandValue(fr, o)
  {
    assert BlockShaped(f, b);
    assert TermResolved(f, b) && TermSupplied(f, b);
    var d := o.id;
    var c: nat, j: nat :| Produces(f, c, j, d) && ((c == b && j < |f.blocks[b].code|) || SDom(f.Graph(), c, b));
    DomRefl(f.Graph(), b);
    forall y: nat, i: nat | y in f.blocks[b].succs && Produces(f, y, i, d) ensures !f.blocks[y].code[i].Phi? {
      if f.blocks[y].code[i].Phi? {
        assert y == c;
        assert HasPhis(f, y);
      }
    }
    Survives(f, b, d, fr, after);
  }

  // ----- runs -----

  ghost predicate StatesMatch(f: Func, s: State, m: Mir.State) {
    match s
    case At(b, fr) =>
      && m.At? && m.block == b && m.out == fr.out && b < |f.blocks|
      && Agree(f, b, PhiCount(f.blocks[b].code, |f.blocks[b].code|), fr, m.regs)
    case Stopped(o, out) => m == Mir.Stopped(o, out)
  }

  lemma FinishMatches(f: Func, b: nat, fr: Frame, after: Mir.Regs)
    requires StrictSsa(f) && NoBranchBack(f) && b < |f.blocks| && Copied(f, b, fr, after)
    ensures StatesMatch(f, Finish(f, b, f.blocks[b].term, fr), Mir.Finish(f.blocks[b].term, after, fr.out))
  {
    var t := f.blocks[b].term;
    forall o | o in TermOperands(t) ensures Mir.OperandIn(after, o) == OperandValue(fr, o) {
      TermOperandSurvives(f, b, o, fr, after);
    }
    forall x | x in Targets(t) ensures StatesMatch(f, Enter(f, b, x, fr), Mir.At(x, after, fr.out)) {
      EdgeMatches(f, b, x, fr, after);
      EdgeKeepsOutput(f.blocks[x].code, |f.blocks[x].code|, b, fr);
    }
    match t {
      case Jump(x) => assert x in Targets(t);
      case Branch(c, x, y) => assert c in TermOperands(t) && x in Targets(t) && y in Targets(t);
      case Return(Some(o)) => assert o in TermOperands(t);
      case _ =>
    }
  }

  lemma StepMatches(f: Func, m: Mir.Func, params: seq<int>, s: State, ms: Mir.State)
    requires StrictSsa(f) && NoBranchBack(f) && IsLowering(f, m) && StatesMatch(f, s, ms)
    ensures StatesMatch(f, Step(f, params, s), Mir.Step(m, params, ms))
  {
    if s.At? {
      var b := s.block;
      BlockRuns(f, m, b, s.frame, ms.regs, params);
      assert BlockLowered(f, m, b);
      var r := RunCode(f.blocks[b].code, |f.blocks[b].code|, s.frame, params);
      if r.Done? {
        var mr := Mir.RunCode(m.blocks[b].code, |m.blocks[b].code|, ms.regs, s.frame.out, params);
        FinishMatches(f, b, r.frame, mr.regs);
      }
    }
  }

  /** Leaving SSA form preserves meaning: after any number of blocks both runs are in the same block with
      the same output, or have stopped with the same result. */
  lemma {:induction false} LoweringPreservesRuns(f: Func, m: Mir.Func, params: seq<int>, n: nat)
    requires StrictSsa(f) && NoBranchBack(f) && IsLowering(f, m)
    ensures StatesMatch(f, Run(f, params, n), Mir.Run(m, params, n))
  {
    if n == 0 {
      StartsMatch(f);
    } else {
      LoweringPreservesRuns(f, m, params, n - 1);
      StepMatches(f, m, params, Run(f, params, n - 1), Mir.Run(m, params, n - 1));
    }
  }

  lemma StartsMatch(f: Func)
    requires StrictSsa(f)
    ensures StatesMatch(f, At(f.entry, START), Mir.At(f.entry, map[], []))
  {
    assert WellFormed(f.Graph());
  }
}
