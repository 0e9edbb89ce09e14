/** Which variables a statement may read, and which statements leave the block they are in. */
module Scoping {
  import opened Wrappers
  import Source

  type Var = Source.Var

  function ExprVars(e: Source.Expr): set<Var> {
    match e
    case Literal(_) => {}
    case Variable(v) => {v}
    case Binary(_, l, r) => ExprVars(l) + ExprVars(r)
    case Unary(_, a) => ExprVars(a)
    case LogicalAnd(l, r) => ExprVars(l) + ExprVars(r)
    case LogicalOr(l, r) => ExprVars(l) + ExprVars(r)
    case NullCoalesce(l, r) => ExprVars(l) + ExprVars(r)
  }

  /** The variables in scope, and all variables declared so far. */
  datatype Scope = Scope(visible: set<Var>, declared: set<Var>)

  /** The scope after a statement, or None when it reads or assigns a variable that is not in scope, or
      declares one a second time. What an arm, a loop body or a block declares ends with it. */
  function Check(s: Source.Stmt, sc: Scope): Option<Scope>
    decreases s, 0
  {
    match s
    case Let(v, e) =>
      if ExprVars(e) <= sc.visible && v !in sc.declared then Some(Scope(sc.visible + {v}, sc.declared + {v})) else None
    case Assign(v, e) => if ExprVars(e) <= sc.visible && v in sc.visible then Some(sc) else None
    case Print(e) => if ExprVars(e) <= sc.visible then Some(sc) else None
    case ExprStmt(e) => if ExprVars(e) <= sc.visible then Some(sc) else None
    case Return(e) => if ExprVars(e) <= sc.visible then Some(sc) else None
    case If(c, t, els) =>
      if !(ExprVars(c) <= sc.visible) then None
      else (match Check(t, sc)
            case None => None
            case Some(after) =>
              var sc1 := Scope(sc.visible, after.declared);
              match els
              case None => Some(sc1)
              case Some(e) => Inside(Check(e, sc1), sc.visible))
    case While(c, b) => if ExprVars(c) <= sc.visible then Inside(Check(b, sc), sc.visible) else None
    case Block(ss) => Inside(CheckAll(ss, sc), sc.visible)
    case Break => Some(sc)
    case Continue => Some(sc)
  }

  function Inside(r: Option<Scope>, visible: set<Var>): Option<Scope> {
    match r case None => None case Some(sc) => Some(Scope(visible, sc.declared))
  }

  function CheckAll(ss: seq<Source.Stmt>, sc: Scope): Option<Scope>
    decreases ss, 1
  {
    if ss == [] then Some(sc)
    else match Check(ss[0], sc)
      case None => None
      case Some(sc1) => CheckAll(ss[1..], sc1)
  }

  // ----- what the scope check decides -----

  /** The variables a statement reads or assigns outside the reach of its own declarations. */
  function Free(s: Source.Stmt): set<Var>
    decreases s, 0
  {
    match s
    case Let(_, e) => ExprVars(e)
    case Assign(v, e) => ExprVars(e) + {v}
    case Print(e) => ExprVars(e)
    case ExprStmt(e) => ExprVars(e)
    case Return(e) => ExprVars(e)
    case If(c, t, els) => ExprVars(c) + Free(t) + (match els case None => {} case Some(e) => Free(e))
    case While(c, b) => ExprVars(c) + Free(b)
    case Block(ss) => AllFree(ss)
    case Break => {}
    case Continue => {}
  }

  /** A declaration reaches the rest of its block. */
  function AllFree(ss: seq<Source.Stmt>): set<Var>
    decreases ss, 1
  {
    if ss == [] then {} else Free(ss[0]) + (AllFree(ss[1..]) - Own(ss[0]))
  }

  function Own(s: Source.Stmt): set<Var> {
    if s.Let? then {s.v} else {}
  }

  /** All declarations, in the order of the text. */
  function Declares(s: Source.Stmt): seq<Var>
    decreases s, 0
  {
    match s
    case Let(v, _) => [v]
    case If(_, t, els) => Declares(t) + (match els case None => [] case Some(e) => Declares(e))
    case While(_, b) => Declares(b)
    case Block(ss) => AllDeclares(ss)
    case _ => []
  }

  function AllDeclares(ss: seq<Source.Stmt>): seq<Var>
    decreases ss, 1
  {
    if ss == [] then [] else Declares(ss[0]) + AllDeclares(ss[1..])
  }

  function SetOf(vs: seq<Var>): set<Var> {
    set v | v in vs
  }

  ghost predicate DeclaredOnce(vs: seq<Var>, before: set<Var>) {
    && (forall i, j :: 0 <= i < j < |vs| ==> vs[i] != vs[j])
    && (forall i :: 0 <= i < |vs| ==> vs[i] !in before)
  }

  lemma DeclaredOnceParts(a: seq<Var>, b: seq<Var>, before: set<Var>)
    ensures DeclaredOnce(a + b, before) <==> DeclaredOnce(a, before) && DeclaredOnce(b, before + SetOf(a))
    ensures SetOf(a + b) == SetOf(a) + SetOf(b)
  {
    var ab := a + b;
    if DeclaredOnce(ab, before) {
      forall i, j | 0 <= i < j < |a| ensures a[i] != a[j] { assert ab[i] != ab[j]; }
      forall i, j | 0 <= i < j < |b| ensures b[i] != b[j] { assert ab[|a| + i] != ab[|a| + j]; }
      forall i | 0 <= i < |a| ensures a[i] !in before { assert ab[i] !in before; }
      forall i, k | 0 <= i < |b| && 0 <= k < |a| ensures a[k] != b[i] { assert ab[k] != ab[|a| + i]; }
      forall i | 0 <= i < |b| ensures b[i] !in before { assert ab[|a| + i] !in before; }
    }
    if DeclaredOnce(a, before) && DeclaredOnce(b, before + SetOf(a)) {
      forall i, j | 0 <= i < j < |ab| ensures ab[i] != ab[j] {
        if i < |a| <= j { assert b[j - |a|] !in SetOf(a); }
      }
    }
  }

  /** The check succeeds exactly when no variable is free but those in scope, and every declaration is of a variable
      not declared before; afterwards the statement's own declaration is in scope too. */
  lemma {:induction false} CheckIff(s: Source.Stmt, sc: Scope)
    ensures Check(s, sc).Some? <==> Free(s) <= sc.visible && DeclaredOnce(Declares(s), sc.declared)
    ensures Check(s, sc).Some? ==>
              Check(s, sc).value == Scope(sc.visible + Own(s), sc.declared + SetOf(Declares(s)))
    decreases s, 0
  {
    match s
    case Let(v, e) => assert Declares(s)[0] == v;
    case If(c, t, els) =>
      CheckIff(t, sc);
      var rest := match els case None => [] case Some(e) => Declares(e);
      DeclaredOnceParts(Declares(t), rest, sc.declared);
      if els.Some? { CheckIff(els.value, Scope(sc.visible, sc.declared + SetOf(Declares(t)))); }
    case While(c, b) => CheckIff(b, sc);
    case Block(ss) => CheckAllIff(ss, sc);
    case _ => assert SetOf([]) == {};
  }

  lemma {:induction false} CheckAllIff(ss: seq<Source.Stmt>, sc: Scope)
    ensures CheckAll(ss, sc).Some? <==> AllFree(ss) <= sc.visible && DeclaredOnce(AllDeclares(ss), sc.declared)
    ensures CheckAll(ss, sc).Some? ==> CheckAll(ss, sc).value.declared == sc.declared + SetOf(AllDeclares(ss))
    decreases ss, 1
  {
    if ss == [] {
      assert SetOf([]) == {};
    } else {
      CheckIff(ss[0], sc);
      DeclaredOnceParts(Declares(ss[0]), AllDeclares(ss[1..]), sc.declared);
      CheckAllIff(ss[1..], Scope(sc.visible + Own(ss[0]), sc.declared + SetOf(Declares(ss[0]))));
    }
  }

  /** Whether lowering the statement leaves the current block ended. */
  predicate Ends(s: Source.Stmt) {
    match s
    case Break => true
    case Continue => true
    case Return(_) => true
    case Block(ss) => exists i :: 0 <= i < |ss| && Ends(ss[i])
    case _ => false
  }

  /** No `if` that gets lowered has two arms that both leave: its merge block would have no predecessor. */
  predicate MergesLive(s: Source.Stmt)
    decreases s, 0
  {
    match s
    case If(_, t, els) =>
      MergesLive(t) && (match els case None => true case Some(e) => MergesLive(e) && !(Ends(t) && Ends(e)))
    case While(_, b) => MergesLive(b)
    case Block(ss) => AllMergesLive(ss)
    case _ => true
  }

  predicate AllMergesLive(ss: seq<Source.Stmt>)
    decreases ss, 1
  {
    ss == [] || (MergesLive(ss[0]) && (Ends(ss[0]) || AllMergesLive(ss[1..])))
  }

  /** break and continue only occur inside loops, in the code that gets lowered. */
  predicate Accepted(s: Source.Stmt, inLoop: bool)
    decreases s, 0
  {
    match s
    case Break => inLoop
    case Continue => inLoop
    case If(_, t, els) => Accepted(t, inLoop) && (match els case None => true case Some(e) => Accepted(e, inLoop))
    case While(_, b) => Accepted(b, true)
    case Block(ss) => AllAccepted(ss, inLoop)
    case _ => true
  }

  predicate AllAccepted(ss: seq<Source.Stmt>, inLoop: bool)
    decreases ss, 1
  {
    ss == [] || (Accepted(ss[0], inLoop) && (Ends(ss[0]) || AllAccepted(ss[1..], inLoop)))
  }

  lemma {:induction false} LoopsOkAccepted(s: Source.Stmt, inLoop: bool)
    requires Source.LoopsOk(s, inLoop)
    ensures Accepted(s, inLoop)
    decreases s, 0
  {
    match s
    case If(_, t, els) =>
      LoopsOkAccepted(t, inLoop);
      if els.Some? { LoopsOkAccepted(els.value, inLoop); }
    case While(_, b) => LoopsOkAccepted(b, true);
    case Block(ss) => AllLoopsOkAccepted(ss, inLoop);
    case _ =>
  }

  lemma {:induction false} AllLoopsOkAccepted(ss: seq<Source.Stmt>, inLoop: bool)
    requires forall i :: 0 <= i < |ss| ==> Source.LoopsOk(ss[i], inLoop)
    ensures AllAccepted(ss, inLoop)
    decreases ss, 1
  {
    if ss != [] {
      LoopsOkAccepted(ss[0], inLoop);
      AllLoopsOkAccepted(ss[1..], inLoop);
    }
  }

  // ----- logical negation -----

  predicate ExprUsesNot(e: Source.Expr) {
    match e
    case Literal(_) => false
    case Variable(_) => false
    case Binary(_, l, r) => ExprUsesNot(l) || ExprUsesNot(r)
    case Unary(op, a) => op.LogicalNot? || ExprUsesNot(a)
    case LogicalAnd(l, r) => ExprUsesNot(l) || ExprUsesNot(r)
    case LogicalOr(l, r) => ExprUsesNot(l) || ExprUsesNot(r)
    case NullCoalesce(l, r) => ExprUsesNot(l) || ExprUsesNot(r)
  }

  /** Whether logical negation occurs in the code that gets lowered. */
  predicate UsesNot(s: Source.Stmt)
    decreases s, 0
  {
    match s
    case Let(_, e) => ExprUsesNot(e)
    case Assign(_, e) => ExprUsesNot(e)
    case Print(e) => ExprUsesNot(e)
    case ExprStmt(e) => ExprUsesNot(e)
    case Return(e) => ExprUsesNot(e)
    case If(c, t, els) => ExprUsesNot(c) || UsesNot(t) || (match els case None => false case Some(e) => UsesNot(e))
    case While(c, b) => ExprUsesNot(c) || UsesNot(b)
    case Block(ss) => AnyUsesNot(ss)
    case Break => false
    case Continue => false
  }

  predicate AnyUsesNot(ss: seq<Source.Stmt>)
    decreases ss, 1
  {
    ss != [] && (UsesNot(ss[0]) || (!Ends(ss[0]) && AnyUsesNot(ss[1..])))
  }
}
