/** SSA construction preserves meaning: phi insertion and renaming against the variable-store semantics. */
module SsaCorrect {
  import opened Wrappers
  import opened Graph
  import opened Frontier
  import opened Hir
  import opened SsaForm

  /** A function whose phis are in place but whose variable references are not yet resolved. */
  ghost predicate PhiReady(f: Func, decl: map<Var, nat>) {
    && Shaped(f) && DefsRecorded(f) && WellScoped(f, decl) && ValuesProduced(f)
    && forall b :: 0 <= b < |f.blocks| ==> BlockPhiReady(f, b)
  }

  ghost predicate BlockPhiReady(f: Func, b: nat)
    requires b < |f.blocks|
  {
    var code := f.blocks[b].code;
    && (forall i :: 0 <= i < |code| && IsVarPhi(f, b, i)
          ==> IsPlaceholderPhi(f, b, code[i]) && NeedsPhi(f, b, code[i].phiVar.value))
    && (forall i, j :: 0 <= i < j < |code| && IsVarPhi(f, b, j)
          ==> IsVarPhi(f, b, i) && code[i].phiVar != code[j].phiVar)
    && (forall v :: NeedsPhi(f, b, v) ==> HasPhi(f, b, v))
  }

  ghost predicate IsPlaceholderPhi(f: Func, b: nat, i: Instr)
    requires b < |f.blocks|
  {
    i.Phi? && i.phiVar.Some? && i == Phi(i.dst, Placeholders(f.blocks[b].preds, i.phiVar.value), None, i.phiVar)
  }

  // ----- which phis survive pruning -----

  /** A candidate is kept exactly when the variable's declaring block strictly dominates it. */
  lemma PruningExact(g: Cfg, defs: set<nat>, d: nat, b: nat)
    requires WellFormed(g) && b < g.Size() && b != g.entry
    requires d in defs && forall x :: x in defs ==> Dom(g, d, x)
    ensures EveryPredDefined(g, defs, b) <==> SDom(g, d, b)
  {
    if EveryPredDefined(g, defs, b) {
      forall p: nat | g.Edge(p, b) ensures Dom(g, d, p) {
        var x :| x in defs && Dom(g, x, p);
        DomTrans(g, d, x, p);
      }
      DomPredsSDom(g, d, b);
    }
    if SDom(g, d, b) {
      forall p: nat | g.Edge(p, b) ensures exists x :: x in defs && Dom(g, x, p) {
        SDomPred(g, d, p, b);
      }
    }
  }

  lemma NeedsPhiWhen(f: Func, decl: map<Var, nat>, b: nat, v: Var)
    requires WellFormed(f.Graph()) && WellScoped(f, decl) && b < |f.blocks| && v in decl
    ensures NeedsPhi(f, b, v) <==> b in IDF(f.Graph(), DefBlocks(f, v)) && SDom(f.Graph(), decl[v], b)
  {
    var g := f.Graph();
    if b == f.entry {
      EntryNotInIDF(g, DefBlocks(f, v));
    } else {
      PruningExact(g, DefBlocks(f, v), decl[v], b);
    }
  }

  lemma EntryNotInIDF(g: Cfg, defs: set<nat>)
    requires WellFormed(g)
    ensures g.entry !in IDF(g, defs)
  {
    var s := g.Blocks() - {g.entry};
    forall x: nat ensures DF(g, x) <= s {
      forall y | y in DF(g, x) ensures y in s {
        var p: nat :| g.Edge(p, y) && Dom(g, x, p);
      }
    }
    IDFLeast(g, defs, s);
  }

  /** A variable with a phi anywhere has definitions, hence a declaration. */
  lemma NeedsPhiDeclared(f: Func, decl: map<Var, nat>, b: nat, v: Var)
    requires WellFormed(f.Graph()) && WellScoped(f, decl) && NeedsPhi(f, b, v)
    ensures v in decl
  {
    var g := f.Graph();
    var defs := DefBlocks(f, v);
    if defs == {} {
      IDFLeast(g, defs, {});
    }
    var x :| x in defs;
  }

  /** v is read, on some walk from the start of b, before that walk's blocks define it. */
  ghost predicate LiveInto(f: Func, decl: map<Var, nat>, b: nat, v: Var) {
    exists w :: ReadAlong(f, decl, w, b, v)
  }

  /** A walk from b to a block that reads v without having defined it first, through blocks that do not
      define v. */
  ghost predicate ReadAlong(f: Func, decl: map<Var, nat>, w: seq<nat>, b: nat, v: Var) {
    && IsWalk(f.Graph(), w) && w[0] == b
    && (forall k :: 0 <= k < |w| - 1 ==> v !in f.blocks[w[k]].defs)
    && UpwardExposed(f, w[|w| - 1], v)
  }

  ghost predicate UpwardExposed(f: Func, b: nat, v: Var) {
    && b < |f.blocks|
    && ((exists i ::
           0 <= i < |f.blocks[b].code| && VarRef(v) in Operands(f.blocks[b].code[i]) && NotDefinedBefore(f, b, i, v))
        || (VarRef(v) in TermOperands(f.blocks[b].term) && NotDefinedBefore(f, b, |f.blocks[b].code|, v))
        || (PhiReads(f, b, v) && NotDefinedBefore(f, b, |f.blocks[b].code|, v)))
  }

  ghost predicate NotDefinedBefore(f: Func, b: nat, i: nat, v: Var)
    requires b < |f.blocks| && i <= |f.blocks[b].code|
  {
    forall j :: 0 <= j < i ==> Defined(f.blocks[b].code[j]) != Some(v)
  }

  /** A phi of some block reads v on the edge from b. */
  ghost predicate PhiReads(f: Func, b: nat, v: Var) {
    exists c, i :: 0 <= c < |f.blocks| && 0 <= i < |f.blocks[c].code| && f.blocks[c].code[i].Phi?
                   && Incoming(b, VarRef(v)) in f.blocks[c].code[i].phis
  }

  lemma ExposedBelowDeclaration(f: Func, decl: map<Var, nat>, u: nat, v: Var)
    requires WellFormed(f.Graph()) && WellScoped(f, decl) && UpwardExposed(f, u, v)
    ensures v in decl && SDom(f.Graph(), decl[v], u)
  {
    assert TermScoped(f, decl, u);
    if i :| 0 <= i < |f.blocks[u].code| && VarRef(v) in Operands(f.blocks[u].code[i]) && NotDefinedBefore(f, u, i, v) {
      assert InstrScoped(f, decl, u, i);
    } else if PhiReads(f, u, v) && NotDefinedBefore(f, u, |f.blocks[u].code|, v) {
      var c, i :| 0 <= c < |f.blocks| && 0 <= i < |f.blocks[c].code| && f.blocks[c].code[i].Phi?
                   && Incoming(u, VarRef(v)) in f.blocks[c].code[i].phis;
      assert InstrScoped(f, decl, c, i);
    }
  }

  /** A dropped candidate is never live: wherever v is live, its declaring block is strictly above. */
  lemma LiveIsDeclaredAbove(f: Func, decl: map<Var, nat>, b: nat, v: Var)
    requires WellFormed(f.Graph()) && WellScoped(f, decl) && LiveInto(f, decl, b, v)
    ensures v in decl && SDom(f.Graph(), decl[v], b)
  {
    var g := f.Graph();
    var w :| ReadAlong(f, decl, w, b, v);
    var u := w[|w| - 1];
    ExposedBelowDeclaration(f, decl, u, v);
    assert v in decl && SDom(g, decl[v], u);
    var d := decl[v];
    assert forall k :: 0 <= k < |w| ==> w[k] != d;
    forall q | PathTo(g, q, b) ensures d in q {
      PathJoin(g, q, w);
      assert d in q + w[1..];
    }
  }

  // ----- what is on the stacks -----

  /** A variable on the stacks was declared above: strictly, when it was already there on entry. */
  lemma {:induction false} KeysDeclared(f: Func, decl: map<Var, nat>, b: nat, i: nat, v: Var)
    requires PhiReady(f, decl) && b < |f.blocks| && i <= |f.blocks[b].code| && v in EnvAt(f, b, i)
    ensures v in decl && Dom(f.Graph(), decl[v], b)
    ensures i == 0 ==> SDom(f.Graph(), decl[v], b)
    decreases |Doms(f.Graph(), b)|, i
  {
    var g := f.Graph();
    if i == 0 {
      var d := IDom(g, b);
      IDomShrinks(g, b);
      assert EnvAt(f, b, 0) == EnvIn(f, b) == EnvOut(f, d);
      KeysDeclared(f, decl, d, |f.blocks[d].code|, v);
      SDomTrans(g, decl[v], d, b);
    } else if v in EnvAt(f, b, i - 1) {
      KeysDeclared(f, decl, b, i - 1, v);
    } else {
      var ins := f.blocks[b].code[i - 1];
      assert BlockPhiReady(f, b);
      if Defined(ins) == Some(v) {
        assert Defines(f.blocks[b].code, v);
        assert b in DefBlocks(f, v);
      } else {
        NeedsPhiDeclared(f, decl, b, v);
        NeedsPhiWhen(f, decl, b, v);
      }
    }
  }

  lemma AvailableLater(f: Func, d: Val, b: nat, i: nat, j: nat)
    requires Available(f, d, b, i) && i <= j
    ensures Available(f, d, b, j)
  {
  }

  lemma AvailableBelow(f: Func, d: Val, a: nat, i: nat, b: nat)
    requires WellFormed(f.Graph()) && a < |f.blocks| && b < |f.blocks|
    requires Available(f, d, a, i) && SDom(f.Graph(), a, b)
    ensures Available(f, d, b, 0)
  {
    var c: nat, j: nat :| Produces(f, c, j, d) && ((c == a && j < i) || SDom(f.Graph(), c, a));
    if c != a { SDomTrans(f.Graph(), c, a, b); }
  }

  /** The value on top of a stack has been produced already. */
  lemma {:induction false} TopsAvailable(f: Func, decl: map<Var, nat>, b: nat, i: nat, v: Var)
    requires PhiReady(f, decl) && b < |f.blocks| && i <= |f.blocks[b].code| && v in EnvAt(f, b, i)
    ensures Available(f, EnvAt(f, b, i)[v], b, i)
    decreases |Doms(f.Graph(), b)|, i
  {
    if i == 0 {
      var d := IDom(f.Graph(), b);
      IDomShrinks(f.Graph(), b);
      assert EnvAt(f, b, 0) == EnvIn(f, b) == EnvOut(f, d);
      TopsAvailable(f, decl, d, |f.blocks[d].code|, v);
      AvailableBelow(f, EnvIn(f, b)[v], d, |f.blocks[d].code|, b);
    } else {
      var env := EnvAt(f, b, i - 1);
      var ins := f.blocks[b].code[i - 1];
      if ins.Bind? && ins.target == v && ins.source.Value? {
        assert InstrSupplied(f, b, i - 1);
        assert ins.source in Operands(ins);
        AvailableLater(f, ins.source.id, b, i - 1, i);
      } else if ins.Bind? && ins.target == v && ins.source.sym in env {
        TopsAvailable(f, decl, b, i - 1, ins.source.sym);
        AvailableLater(f, env[ins.source.sym], b, i - 1, i);
      } else if v in env && EnvAt(f, b, i)[v] == env[v] {
        TopsAvailable(f, decl, b, i - 1, v);
        AvailableLater(f, env[v], b, i - 1, i);
      } else {
        assert Produces(f, b, i - 1, EnvAt(f, b, i)[v]);
      }
    }
  }

  lemma {:induction false} PushGrows(env: Env, code: seq<Instr>, i: nat, j: nat, v: Var)
    requires i <= j <= |code| && v in PushAll(env, code, i)
    ensures v in PushAll(env, code, j)
    decreases j
  {
    if i < j { PushGrows(env, code, i, j - 1, v); }
  }

  lemma BindVisible(f: Func, decl: map<Var, nat>, b: nat, j: nat)
    requires PhiReady(f, decl) && b < |f.blocks| && j < |f.blocks[b].code|
    requires f.blocks[b].code[j].Bind? && f.blocks[b].code[j].source.VarRef?
    ensures Visible(f, decl, f.blocks[b].code[j].source.sym, b, j)
  {
    var ins := f.blocks[b].code[j];
    assert InstrScoped(f, decl, b, j);
    assert ins.source in Operands(ins);
  }

  lemma DefinitionPushed(f: Func, decl: map<Var, nat>, b: nat, j: nat, v: Var)
    requires PhiReady(f, decl) && b < |f.blocks| && j < |f.blocks[b].code|
    requires Defined(f.blocks[b].code[j]) == Some(v)
    requires var ins := f.blocks[b].code[j];
             ins.Bind? && ins.source.VarRef? ==> ins.source.sym in EnvAt(f, b, j)
    ensures v in EnvAt(f, b, j + 1)
  {
    assert BlockPhiReady(f, b);
  }

  /** Renaming finds a value for every visible variable. */
  lemma {:induction false} VisibleOnStack(f: Func, decl: map<Var, nat>, v: Var, b: nat, i: nat)
    requires PhiReady(f, decl) && b < |f.blocks| && i <= |f.blocks[b].code| && Visible(f, decl, v, b, i)
    ensures v in EnvAt(f, b, i)
    decreases |Doms(f.Graph(), b)|, i
  {
    var g := f.Graph();
    if SDom(g, decl[v], b) {
      if b == f.entry { OnlyEntryDomsEntry(g, decl[v]); }
      var d := IDom(g, b);
      SDomIDom(g, decl[v], b);
      IDomShrinks(g, b);
      if decl[v] == d {
        assert d in DefBlocks(f, v) && Defines(f.blocks[d].code, v);
        var j :| 0 <= j < |f.blocks[d].code| && Defined(f.blocks[d].code[j]) == Some(v);
      }
      VisibleOnStack(f, decl, v, d, |f.blocks[d].code|);
      assert EnvAt(f, b, 0) == EnvIn(f, b) == EnvOut(f, d);
      PushGrows(EnvIn(f, b), f.blocks[b].code, 0, i, v);
    } else {
      var j :| 0 <= j < i && Defined(f.blocks[b].code[j]) == Some(v);
      var ins := f.blocks[b].code[j];
      if ins.Bind? && ins.source.VarRef? {
        BindVisible(f, decl, b, j);
        VisibleOnStack(f, decl, ins.source.sym, b, j);
      }
      DefinitionPushed(f, decl, b, j, v);
      PushGrows(EnvIn(f, b), f.blocks[b].code, j + 1, i, v);
    }
  }

  // ----- without a phi the incoming stack top is the same on every edge -----

  lemma {:induction false} QuietCode(env: Env, code: seq<Instr>, n: nat, v: Var)
    requires n <= |code| && forall j :: 0 <= j < n ==> !Pushes(code[j], v)
    ensures v in PushAll(env, code, n) <==> v in env
    ensures v in env ==> PushAll(env, code, n)[v] == env[v]
  {
    if n > 0 { QuietCode(env, code, n - 1, v); }
  }

  /** A block pushes only variables that it defines or has a phi for. */
  lemma PushedHere(f: Func, b: nat, j: nat, v: Var)
    requires b < |f.blocks| && BlockPhiReady(f, b) && j < |f.blocks[b].code| && Pushes(f.blocks[b].code[j], v)
    ensures Defines(f.blocks[b].code, v) || NeedsPhi(f, b, v)
  {
    if Defined(f.blocks[b].code[j]) != Some(v) { assert IsVarPhi(f, b, j); }
  }

  /** Where x is in the frontier of z, a variable that is declared above x and has no phi there is neither
      defined nor merged in z. */
  lemma NotDefinedAt(f: Func, decl: map<Var, nat>, x: nat, z: nat, v: Var)
    requires WellFormed(f.Graph()) && WellScoped(f, decl) && z < |f.blocks| && x < |f.blocks| && v in decl
    requires BlockPhiReady(f, x) && SDom(f.Graph(), decl[v], x) && !HasPhi(f, x, v) && InDF(f.Graph(), z, x)
    ensures z !in DefBlocks(f, v) && !NeedsPhi(f, z, v)
  {
    NeedsPhiWhen(f, decl, x, v);
    IDFClosed(f.Graph(), DefBlocks(f, v));
    assert x in DF(f.Graph(), z);
  }

  /** Between x's immediate dominator and a predecessor of x, nothing is pushed for a variable that has no
      phi at x. */
  lemma NothingPushed(f: Func, decl: map<Var, nat>, x: nat, z: nat, v: Var)
    requires PhiReady(f, decl) && z < |f.blocks| && x < |f.blocks| && v in decl
    requires SDom(f.Graph(), decl[v], x) && !HasPhi(f, x, v) && InDF(f.Graph(), z, x)
    ensures v in EnvOut(f, z) <==> v in EnvIn(f, z)
    ensures v in EnvIn(f, z) ==> EnvOut(f, z)[v] == EnvIn(f, z)[v]
  {
    assert BlockPhiReady(f, z) && BlockPhiReady(f, x);
    NotDefinedAt(f, decl, x, z, v);
    var code := f.blocks[z].code;
    assert !Defines(code, v);
    forall j | 0 <= j < |code| ensures !Pushes(code[j], v) {
      if Pushes(code[j], v) { PushedHere(f, z, j, v); }
    }
    QuietCode(EnvIn(f, z), code, |code|, v);
  }

  lemma {:induction false} SameTopOnEdge(f: Func, decl: map<Var, nat>, x: nat, p: nat, z: nat, v: Var)
    requires PhiReady(f, decl) && f.Graph().Edge(p, x)
    requires x != f.entry && z < |f.blocks| && v in decl
    requires SDom(f.Graph(), decl[v], x) && !HasPhi(f, x, v)
    requires Dom(f.Graph(), IDom(f.Graph(), x), z) && Dom(f.Graph(), z, p)
    ensures v in EnvOut(f, z) <==> v in EnvIn(f, x)
    ensures v in EnvIn(f, x) ==> EnvOut(f, z)[v] == EnvIn(f, x)[v]
    decreases |Doms(f.Graph(), z)|
  {
    var g := f.Graph();
    if z != IDom(g, x) {
      RunnerTest(g, z, p, x);
      NothingPushed(f, decl, x, z, v);
      IDomShrinks(g, z);
      SameTopOnEdge(f, decl, x, p, IDom(g, z), v);
    }
  }

  // ----- the invariant: the top of each stack holds the variable's current value -----

  ghost predicate EnvHolds(env: Env, fr: Frame) {
    forall v :: v in env ==> Get(fr.temps, env[v]) == Get(fr.vars, v)
  }

  lemma TopNotProducedHere(f: Func, decl: map<Var, nat>, b: nat, i: nat, v: Var)
    requires PhiReady(f, decl) && b < |f.blocks| && i < |f.blocks[b].code| && v in EnvAt(f, b, i)
    ensures Dst(f.blocks[b].code[i]) != Some(EnvAt(f, b, i)[v])
  {
    TopsAvailable(f, decl, b, i, v);
    var d := EnvAt(f, b, i)[v];
    if Dst(f.blocks[b].code[i]) == Some(d) {
      assert Produces(f, b, i, d);
    }
  }

  /** Evaluating a renamed operand gives the operand's value. */
  lemma RenamedOperandValue(env: Env, fr: Frame, o: Operand)
    requires EnvHolds(env, fr)
    ensures OperandValue(fr, RenameOperand(env, o)) == OperandValue(fr, o)
  {
  }

  lemma RenamedOperandValues(env: Env, fr: Frame, os: seq<Operand>)
    requires EnvHolds(env, fr)
    ensures OperandValues(fr, RenameOperands(env, os)) == OperandValues(fr, os)
  {
    forall k | 0 <= k < |os|
      ensures OperandValues(fr, RenameOperands(env, os))[k] == OperandValues(fr, os)[k]
    {
      RenamedOperandValue(env, fr, os[k]);
    }
  }

  lemma RenamedExec(env: Env, i: Instr, fr: Frame, params: seq<int>)
    requires EnvHolds(env, fr) && !i.Phi?
    ensures Exec(RenameInstr(env, i), fr, params) == Exec(i, fr, params)
  {
    match i
    case Compute(op, d, args, s) => RenamedOperandValues(env, fr, args);
    case Print(a) => RenamedOperandValue(env, fr, a);
    case Bind(a, v) => RenamedOperandValue(env, fr, a);
  }

  lemma PushHolds(f: Func, decl: map<Var, nat>, b: nat, i: nat, fr: Frame, params: seq<int>)
    requires PhiReady(f, decl) && b < |f.blocks| && i < |f.blocks[b].code| && !f.blocks[b].code[i].Phi?
    requires EnvHolds(EnvAt(f, b, i), fr) && Exec(f.blocks[b].code[i], fr, params).Done?
    ensures EnvHolds(EnvAt(f, b, i + 1), Exec(f.blocks[b].code[i], fr, params).frame)
  {
    var ins := f.blocks[b].code[i];
    var env := EnvAt(f, b, i);
    if ins.Bind? && ins.source.VarRef? {
      BindVisible(f, decl, b, i);
      VisibleOnStack(f, decl, ins.source.sym, b, i);
    }
    var fr' := Exec(ins, fr, params).frame;
    forall v | v in EnvAt(f, b, i + 1)
      ensures Get(fr'.temps, EnvAt(f, b, i + 1)[v]) == Get(fr'.vars, v)
    {
      if v in env { TopNotProducedHere(f, decl, b, i, v); }
    }
  }

  function PhiCount(code: seq<Instr>, n: nat): (k: nat)
    requires n <= |code|
    ensures k <= n
  {
    if n == 0 then 0 else PhiCount(code, n - 1) + (if code[n - 1].Phi? then 1 else 0)
  }

  lemma {:induction false} PhiPrefix(code: seq<Instr>, n: nat)
    requires n <= |code| && PhisFirst(code)
    ensures forall i :: 0 <= i < n ==> (code[i].Phi? <==> i < PhiCount(code, n))
  {
    if n > 0 { PhiPrefix(code, n - 1); }
  }

  /** Stack tops once a block's phis have taken effect. */
  ghost function EnvStart(f: Func, b: nat): Env
    requires WellFormed(f.Graph()) && b < |f.blocks|
  {
    EnvAt(f, b, PhiCount(f.blocks[b].code, |f.blocks[b].code|))
  }

  lemma BodyStep(f: Func, decl: map<Var, nat>, b: nat, i: nat, fr: Frame, params: seq<int>)
    requires PhiReady(f, decl) && b < |f.blocks| && i < |f.blocks[b].code| && !f.blocks[b].code[i].Phi?
    requires EnvHolds(EnvAt(f, b, i), fr)
    ensures Exec(RenamedBlock(f, b).code[i], fr, params) == Exec(f.blocks[b].code[i], fr, params)
    ensures var r := Exec(f.blocks[b].code[i], fr, params);
            r.Done? ==> EnvHolds(EnvAt(f, b, i + 1), r.frame)
  {
    RenamedExec(EnvAt(f, b, i), f.blocks[b].code[i], fr, params);
    if Exec(f.blocks[b].code[i], fr, params).Done? {
      PushHolds(f, decl, b, i, fr, params);
    }
  }

  lemma {:induction false} PhisDoNothing(code: seq<Instr>, n: nat, fr: Frame, params: seq<int>)
    requires n <= |code| && forall i :: 0 <= i < n ==> code[i].Phi?
    ensures RunCode(code, n, fr, params) == Done(fr)
  {
    if n > 0 { PhisDoNothing(code, n - 1, fr, params); }
  }

  /** After n instructions renamed and original code have done the same, and the stacks are right. */
  ghost predicate AgreesAt(f: Func, b: nat, n: nat, fr: Frame, params: seq<int>)
    requires WellFormed(f.Graph()) && b < |f.blocks| && n <= |f.blocks[b].code|
  {
    var r := RunCode(f.blocks[b].code, n, fr, params);
    RunCode(RenamedBlock(f, b).code, n, fr, params) == r && (r.Done? ==> EnvHolds(EnvAt(f, b, n), r.frame))
  }

  lemma BodyStart(f: Func, b: nat, fr: Frame, params: seq<int>)
    requires WellFormed(f.Graph()) && b < |f.blocks| && PhisFirst(f.blocks[b].code) && EnvHolds(EnvStart(f, b), fr)
    ensures AgreesAt(f, b, PhiCount(f.blocks[b].code, |f.blocks[b].code|), fr, params)
  {
    var code := f.blocks[b].code;
    var code' := RenamedBlock(f, b).code;
    var k := PhiCount(code, |code|);
    PhiPrefix(code, |code|);
    PhisDoNothing(code, k, fr, params);
    forall i | 0 <= i < k ensures code'[i].Phi? { assert code[i].Phi?; }
    PhisDoNothing(code', k, fr, params);
  }

  lemma AgreesNext(f: Func, decl: map<Var, nat>, b: nat, n: nat, fr: Frame, params: seq<int>)
    requires PhiReady(f, decl) && b < |f.blocks| && n < |f.blocks[b].code| && !f.blocks[b].code[n].Phi?
    requires AgreesAt(f, b, n, fr, params)
    ensures AgreesAt(f, b, n + 1, fr, params)
  {
    var r := RunCode(f.blocks[b].code, n, fr, params);
    if r.Done? { BodyStep(f, decl, b, n, r.frame, params); }
  }

  /** Inside a block, renamed code and original code run alike and the stacks stay right. */
  lemma {:induction false} BodyAgrees(f: Func, decl: map<Var, nat>, b: nat, n: nat, fr: Frame, params: seq<int>)
    requires PhiReady(f, decl) && b < |f.blocks|
    requires PhiCount(f.blocks[b].code, |f.blocks[b].code|) <= n <= |f.blocks[b].code|
    requires EnvHolds(EnvStart(f, b), fr)
    ensures AgreesAt(f, b, n, fr, params)
    decreases n
  {
    var code := f.blocks[b].code;
    assert BlockShaped(f, b);
    PhiPrefix(code, |code|);
    if n == PhiCount(code, |code|) {
      BodyStart(f, b, fr, params);
    } else {
      BodyAgrees(f, decl, b, n - 1, fr, params);
      AgreesNext(f, decl, b, n - 1, fr, params);
    }
  }

  // ----- edges -----

  lemma {:induction false} ChosenRenamed(f: Func, phis: seq<Incoming>, p: nat, fr: Frame)
    requires WellFormed(f.Graph()) && p < |f.blocks| && EnvHolds(EnvOut(f, p), fr)
    ensures OperandValue(fr, Chosen(RenamePhis(f, phis), p)) == OperandValue(fr, Chosen(phis, p))
  {
    if phis != [] {
      if phis[0].pred == p {
        RenamedOperandValue(EnvOut(f, p), fr, phis[0].value);
      } else {
        assert RenamePhis(f, phis)[1..] == RenamePhis(f, phis[1..]);
        ChosenRenamed(f, phis[1..], p, fr);
      }
    }
  }

  lemma {:induction false} EdgeAgrees(f: Func, p: nat, x: nat, n: nat, fr: Frame)
    requires WellFormed(f.Graph()) && p < |f.blocks| && x < |f.blocks| && n <= |f.blocks[x].code|
    requires EnvHolds(EnvOut(f, p), fr)
    ensures TakeEdge(RenamedBlock(f, x).code, n, p, fr) == TakeEdge(f.blocks[x].code, n, p, fr)
  {
    if n > 0 {
      EdgeAgrees(f, p, x, n - 1, fr);
      var ins := f.blocks[x].code[n - 1];
      if ins.Phi? { ChosenRenamed(f, ins.phis, p, fr); }
    }
  }

  lemma {:induction false} ChosenPlaceholder(preds: seq<nat>, v: Var, p: nat)
    requires p in preds
    ensures Chosen(Placeholders(preds, v), p) == VarRef(v)
  {
    if preds[0] != p {
      assert Placeholders(preds, v)[1..] == Placeholders(preds[1..], v);
      ChosenPlaceholder(preds[1..], v, p);
    }
  }

  /** A variable with no phi at x has the same stack top on entry to x as at the end of the block left. */
  lemma UnmergedTop(f: Func, decl: map<Var, nat>, p: nat, x: nat, v: Var)
    requires PhiReady(f, decl) && f.Graph().Edge(p, x) && v in EnvIn(f, x) && !HasPhi(f, x, v)
    ensures v in EnvOut(f, p) && EnvOut(f, p)[v] == EnvIn(f, x)[v]
  {
    var g := f.Graph();
    KeysDeclared(f, decl, x, 0, v);
    SDomPred(g, IDom(g, x), p, x);
    DomRefl(g, p);
    SameTopOnEdge(f, decl, x, p, p, v);
  }

  /** While the phis of x take effect, the stacks are right but for variables whose phi is still to come. */
  ghost predicate HoldsBut(f: Func, x: nat, n: nat, fr: Frame)
    requires WellFormed(f.Graph()) && x < |f.blocks| && n <= |f.blocks[x].code|
  {
    forall v :: v in EnvAt(f, x, n) && !PhiPending(f, x, n, v) ==> Get(fr.temps, EnvAt(f, x, n)[v]) == Get(fr.vars, v)
  }

  lemma EdgeBase(f: Func, decl: map<Var, nat>, p: nat, x: nat, fr: Frame)
    requires PhiReady(f, decl) && f.Graph().Edge(p, x) && EnvHolds(EnvOut(f, p), fr)
    ensures HoldsBut(f, x, 0, fr)
  {
    forall v | v in EnvIn(f, x) && !PhiPending(f, x, 0, v)
      ensures Get(fr.temps, EnvIn(f, x)[v]) == Get(fr.vars, v)
    {
      UnmergedTop(f, decl, p, x, v);
    }
  }

  lemma EdgeStep(f: Func, decl: map<Var, nat>, x: nat, n: nat, before: Frame, val: int)
    requires PhiReady(f, decl) && x < |f.blocks| && n < |f.blocks[x].code| && HoldsBut(f, x, n, before)
    requires var ins := f.blocks[x].code[n];
             ins.Phi? && (ins.phiVar.Some? ==> ins.defSym == None && val == Get(before.vars, ins.phiVar.value))
    ensures HoldsBut(f, x, n + 1, Write(before, f.blocks[x].code[n].dst, f.blocks[x].code[n].defSym, val))
  {
    var ins := f.blocks[x].code[n];
    var env := EnvAt(f, x, n);
    var after := Write(before, ins.dst, ins.defSym, val);
    forall v | v in EnvAt(f, x, n + 1) && !PhiPending(f, x, n + 1, v)
      ensures Get(after.temps, EnvAt(f, x, n + 1)[v]) == Get(after.vars, v)
    {
      if !Pushes(ins, v) {
        TopNotProducedHere(f, decl, x, n, v);
      }
    }
  }

  /** Phis that stand for variables write no variable. */
  lemma {:induction false} VarPhisKeepVars(code: seq<Instr>, n: nat, p: nat, fr: Frame)
    requires n <= |code| && forall i :: 0 <= i < n ==> code[i].Phi? && code[i].defSym == None
    ensures TakeEdge(code, n, p, fr).vars == fr.vars
  {
    if n > 0 { VarPhisKeepVars(code, n - 1, p, fr); }
  }

  /** The value a variable's phi takes is the variable's current value. */
  lemma VarPhiValue(f: Func, x: nat, n: nat, p: nat, fr: Frame)
    requires x < |f.blocks| && n < |f.blocks[x].code| && BlockPhiReady(f, x) && IsVarPhi(f, x, n)
    requires p in f.blocks[x].preds
    ensures f.blocks[x].code[n].defSym == None
    ensures OperandValue(fr, Chosen(f.blocks[x].code[n].phis, p))
              == Get(TakeEdge(f.blocks[x].code, n, p, fr).vars, f.blocks[x].code[n].phiVar.value)
  {
    var code := f.blocks[x].code;
    assert IsPlaceholderPhi(f, x, code[n]);
    ChosenPlaceholder(f.blocks[x].preds, code[n].phiVar.value, p);
    forall i | 0 <= i < n ensures code[i].Phi? && code[i].defSym == None {
      assert IsVarPhi(f, x, i);
      assert IsPlaceholderPhi(f, x, code[i]);
    }
    VarPhisKeepVars(code, n, p, fr);
  }

  lemma {:induction false} EdgeHolds(f: Func, decl: map<Var, nat>, p: nat, x: nat, n: nat, fr: Frame)
    requires PhiReady(f, decl) && f.Graph().Edge(p, x)
    requires n <= PhiCount(f.blocks[x].code, |f.blocks[x].code|) && EnvHolds(EnvOut(f, p), fr)
    ensures HoldsBut(f, x, n, TakeEdge(f.blocks[x].code, n, p, fr))
  {
    if n == 0 {
      EdgeBase(f, decl, p, x, fr);
    } else {
      EdgeHolds(f, decl, p, x, n - 1, fr);
      EdgeNext(f, decl, p, x, n - 1, fr);
    }
  }

  lemma EdgeNext(f: Func, decl: map<Var, nat>, p: nat, x: nat, n: nat, fr: Frame)
    requires PhiReady(f, decl) && f.Graph().Edge(p, x) && n < PhiCount(f.blocks[x].code, |f.blocks[x].code|)
    requires HoldsBut(f, x, n, TakeEdge(f.blocks[x].code, n, p, fr))
    ensures HoldsBut(f, x, n + 1, TakeEdge(f.blocks[x].code, n + 1, p, fr))
  {
    var code := f.blocks[x].code;
    assert BlockShaped(f, x) && BlockPhiReady(f, x);
    PhiPrefix(code, |code|);
    if IsVarPhi(f, x, n) { VarPhiValue(f, x, n, p, fr); }
    EdgeStep(f, decl, x, n, TakeEdge(code, n, p, fr), OperandValue(fr, Chosen(code[n].phis, p)));
  }

  ghost predicate PhiPending(f: Func, x: nat, n: nat, v: Var)
    requires x < |f.blocks|
  {
    exists j :: n <= j < |f.blocks[x].code| && f.blocks[x].code[j].Phi? && f.blocks[x].code[j].phiVar == Some(v)
  }

  lemma {:induction false} TakeEdgeRest(code: seq<Instr>, k: nat, n: nat, from: nat, fr: Frame)
    requires k <= n <= |code| && forall i :: k <= i < n ==> !code[i].Phi?
    ensures TakeEdge(code, n, from, fr) == TakeEdge(code, k, from, fr)
  {
    if k < n { TakeEdgeRest(code, k, n - 1, from, fr); }
  }

  lemma EntryHolds(f: Func, decl: map<Var, nat>, p: nat, x: nat, fr: Frame)
    requires PhiReady(f, decl) && f.Graph().Edge(p, x) && EnvHolds(EnvOut(f, p), fr)
    ensures EnvHolds(EnvStart(f, x), TakeEdge(f.blocks[x].code, |f.blocks[x].code|, p, fr))
  {
    var code := f.blocks[x].code;
    var k := PhiCount(code, |code|);
    assert BlockShaped(f, x);
    PhiPrefix(code, |code|);
    EdgeHolds(f, decl, p, x, k, fr);
    TakeEdgeRest(code, k, |code|, p, fr);
  }

  // ----- runs -----

  ghost predicate StacksRight(f: Func, s: State)
    requires WellFormed(f.Graph())
  {
    s.At? ==> s.block < |f.blocks| && EnvHolds(EnvStart(f, s.block), s.frame)
  }

  lemma StepAgrees(f: Func, decl: map<Var, nat>, params: seq<int>, s: State)
    requires PhiReady(f, decl) && StacksRight(f, s)
    ensures Step(Renamed(f), params, s) == Step(f, params, s)
    ensures StacksRight(f, Step(f, params, s))
  {
    if s.At? {
      var b := s.block;
      var code := f.blocks[b].code;
      BodyAgrees(f, decl, b, |code|, s.frame, params);
      assert AgreesAt(f, b, |code|, s.frame, params);
      var r := RunCode(code, |code|, s.frame, params);
      if r.Done? {
        assert EnvHolds(EnvOut(f, b), r.frame);
        var t := f.blocks[b].term;
        match t {
          case Jump(x) => EnterAgrees(f, decl, b, x, r.frame);
          case Branch(c, x, y) =>
            RenamedOperandValue(EnvOut(f, b), r.frame, c);
            EnterAgrees(f, decl, b, if OperandValue(r.frame, c) != 0 then x else y, r.frame);
          case Return(Some(o)) => RenamedOperandValue(EnvOut(f, b), r.frame, o);
          case Return(None) =>
          case Halt =>
        }
      }
    }
  }

  lemma EnterAgrees(f: Func, decl: map<Var, nat>, b: nat, x: nat, fr: Frame)
    requires PhiReady(f, decl) && b < |f.blocks| && x in Targets(f.blocks[b].term) && EnvHolds(EnvOut(f, b), fr)
    ensures Enter(Renamed(f), b, x, fr) == Enter(f, b, x, fr)
    ensures StacksRight(f, Enter(f, b, x, fr))
  {
    assert BlockShaped(f, b);
    assert x in f.Graph().succs[b];
    assert f.Graph().Edge(b, x);
    EdgeAgrees(f, b, x, |f.blocks[x].code|, fr);
    EntryHolds(f, decl, b, x, fr);
  }

  /** Renaming preserves meaning: after any number of blocks the two runs are in the same state. */
  lemma {:induction false} RenamingPreservesRuns(f: Func, decl: map<Var, nat>, params: seq<int>, n: nat)
    requires PhiReady(f, decl)
    ensures Run(Renamed(f), params, n) == Run(f, params, n)
    ensures StacksRight(f, Run(f, params, n))
  {
    if n == 0 {
      EntryStartsEmpty(f, decl);
    } else {
      RenamingPreservesRuns(f, decl, params, n - 1);
      StepAgrees(f, decl, params, Run(f, params, n - 1));
    }
  }

  lemma EntryStartsEmpty(f: Func, decl: map<Var, nat>)
    requires PhiReady(f, decl)
    ensures EnvHolds(EnvStart(f, f.entry), START)
  {
  }
}
