/** Types on which both back ends hold the same values, and expressions of such types: the virtual machine gives an
    expression the value native code gives it, or fails where an operand, needed or not, cannot be evaluated. */
module ValueTypes {
  import opened Wrappers
  import opened Scoping
  import opened VirtualMachine
  import opened VmSource
  import Hir
  import Source

  /** A value of TruthType counts only as true or false: native code may hold 3 where the machine holds true. */
  datatype Type = IntType | BoolType | TruthType

  type Types = map<Source.Var, Type>

  /** What both back ends make of an expression: arithmetic and order on integers, equality on values of one type,
      `&&` and `||` on anything. Their value is the same boolean when the right operand is one. */
  function TypeOf(e: Source.Expr, types: Types): Option<Type> {
    match e
    case Literal(c) => Some(if c.Number? then IntType else BoolType)
    case Variable(v) => if v in types then Some(types[v]) else None
    case Binary(op, l, r) =>
      var a, b := TypeOf(l, types), TypeOf(r, types);
      if a.None? || a != b || a.value.TruthType? then None
      else if a.value.BoolType? && !op.EqualEqual? && !op.NotEqual? then None
      else Some(ResultType(op))
    case Unary(op, a) =>
      (match TypeOf(a, types)
       case None => None
       case Some(t) => if op.LogicalNot? then Some(BoolType) else if t.IntType? then Some(IntType) else None)
    case LogicalAnd(l, r) => Combined(TypeOf(l, types), TypeOf(r, types))
    case LogicalOr(l, r) => Combined(TypeOf(l, types), TypeOf(r, types))
    case NullCoalesce(_, _) => None
  }

  function ResultType(op: Source.BinaryOp): Type {
    match op
    case Plus => IntType
    case Minus => IntType
    case Star => IntType
    case Slash => IntType
    case Percent => IntType
    case _ => BoolType
  }

  function Combined(a: Option<Type>, b: Option<Type>): Option<Type> {
    if a.None? || b.None? then None else Some(if b.value.BoolType? then BoolType else TruthType)
  }

  predicate Widens(t: Option<Type>, u: Type) {
    t.Some? && (t.value == u || u.TruthType?)
  }

  /** Whether e has a type whose values are the same in both back ends. */
  predicate Exact(e: Source.Expr, types: Types) {
    TypeOf(e, types).Some? && !TypeOf(e, types).value.TruthType?
  }

  predicate Typed(s: Source.Stmt, types: Types) {
    match s
    case Let(v, e) => v in types && Widens(TypeOf(e, types), types[v])
    case Assign(v, e) => v in types && Widens(TypeOf(e, types), types[v])
    case Print(e) => Exact(e, types)
    case ExprStmt(e) => TypeOf(e, types).Some?
    case If(c, t, els) => TypeOf(c, types).Some? && Typed(t, types) && (els.Some? ==> Typed(els.value, types))
    case While(c, b) => TypeOf(c, types).Some? && Typed(b, types)
    case Block(ss) => forall i :: 0 <= i < |ss| ==> Typed(ss[i], types)
    case Break => true
    case Continue => true
    case Return(e) => Exact(e, types)
  }

  /** The machine's value v and native code's y are one value of type t. */
  predicate Matches(v: Value, y: int, t: Type) {
    match t
    case IntType => v == Int(y)
    case BoolType => v.Bool? && y == Source.Truth(v.b)
    case TruthType => IsWord(v) && (v.Truthy() <==> y != 0)
  }

  /** The machine's value as native code holds it. */
  function Erase(v: Value): int {
    match v
    case Int(n) => n
    case Bool(b) => Source.Truth(b)
    case _ => 0
  }

  /** A value that both back ends can hold. */
  predicate IsWord(v: Value) {
    v.Int? || v.Bool?
  }

  ghost predicate AllWords(vs: seq<Value>) {
    forall i :: 0 <= i < |vs| ==> IsWord(vs[i])
  }

  function EraseAll(vs: seq<Value>): (r: seq<int>)
    ensures |r| == |vs|
  {
    seq(|vs|, i requires 0 <= i < |vs| => Erase(vs[i]))
  }

  ghost predicate SlotAgrees(vars: Slots, m: Source.Vars, types: Types, v: Source.Var) {
    v in types && v < |vars| && Matches(vars[v], Hir.Get(m, v), types[v])
  }

  ghost predicate Agrees(vars: Slots, m: Source.Vars, types: Types, visible: set<Source.Var>) {
    forall v :: v in visible ==> SlotAgrees(vars, m, types, v)
  }

  /** No operand of e, whether its value is needed or not, traps. */
  predicate Total(e: Source.Expr, m: Source.Vars) {
    match e
    case Literal(_) => true
    case Variable(_) => true
    case Binary(op, l, r) =>
      && Total(l, m) && Total(r, m)
      && (match (Source.Eval(l, m, []), Source.Eval(r, m, []))
          case (Some(x), Some(y)) => Source.EvalBinary(op, x, y).Some?
          case _ => false)
    case Unary(_, a) => Total(a, m)
    case LogicalAnd(l, r) => Total(l, m) && Total(r, m)
    case LogicalOr(l, r) => Total(l, m) && Total(r, m)
    case NullCoalesce(_, _) => false
  }

  /** Expressions do not read parameters other than as variables. */
  lemma {:induction false} ParamsDoNotMatter(e: Source.Expr, m: Source.Vars, params: seq<int>)
    ensures Source.Eval(e, m, params) == Source.Eval(e, m, [])
  {
    match e
    case Binary(_, l, r) =>
      ParamsDoNotMatter(l, m, params);
      ParamsDoNotMatter(r, m, params);
    case Unary(_, a) => ParamsDoNotMatter(a, m, params);
    case LogicalAnd(l, r) =>
      ParamsDoNotMatter(l, m, params);
      ParamsDoNotMatter(r, m, params);
    case LogicalOr(l, r) =>
      ParamsDoNotMatter(l, m, params);
      ParamsDoNotMatter(r, m, params);
    case NullCoalesce(l, r) =>
      ParamsDoNotMatter(l, m, params);
      ParamsDoNotMatter(r, m, params);
    case _ =>
  }

  /** The machine evaluates a typed expression exactly when no operand traps, and then to the native value. */
  lemma {:induction false} ExprAgrees(e: Source.Expr, types: Types, vars: Slots, m: Source.Vars)
    requires TypeOf(e, types).Some? && Agrees(vars, m, types, ExprVars(e))
    ensures VmSource.Eval(e, vars).Some? <==> Total(e, m)
    ensures VmSource.Eval(e, vars).Some? ==>
      && Source.Eval(e, m, []).Some?
      && Matches(VmSource.Eval(e, vars).value, Source.Eval(e, m, []).value, TypeOf(e, types).value)
  {
    match e
    case Literal(_) =>
    case Variable(v) => assert SlotAgrees(vars, m, types, v);
    case Binary(op, l, r) =>
      ExprAgrees(l, types, vars, m);
      ExprAgrees(r, types, vars, m);
      if VmSource.Eval(l, vars).Some? && VmSource.Eval(r, vars).Some? {
        OperatorAgrees(op, VmSource.Eval(l, vars).value, VmSource.Eval(r, vars).value, Source.Eval(l, m, []).value,
                       Source.Eval(r, m, []).value, TypeOf(l, types).value);
      }
    case Unary(op, a) => ExprAgrees(a, types, vars, m);
    case LogicalAnd(l, r) =>
      ExprAgrees(l, types, vars, m);
      ExprAgrees(r, types, vars, m);
    case LogicalOr(l, r) =>
      ExprAgrees(l, types, vars, m);
      ExprAgrees(r, types, vars, m);
  }

  lemma OperatorAgrees(op: Source.BinaryOp, a: Value, b: Value, x: int, y: int, t: Type)
    requires Matches(a, x, t) && Matches(b, y, t)
    requires t.IntType? || (t.BoolType? && (op.EqualEqual? || op.NotEqual?))
    ensures ApplyBinary(op, a, b).Some? <==> Source.EvalBinary(op, x, y).Some?
    ensures ApplyBinary(op, a, b).Some? ==>
      Matches(ApplyBinary(op, a, b).value, Source.EvalBinary(op, x, y).value, ResultType(op))
  {
  }

  /** Both back ends give e the number or boolean x. */
  ghost predicate BothGive(e: Source.Expr, vars: Slots, m: Source.Vars, x: Value) {
    IsWord(x) && VmSource.Eval(e, vars) == Some(x) && Source.Eval(e, m, []) == Some(Erase(x))
  }

  /** `&&` on values that the back ends agree on gives a value they agree on exactly when the left one is 0 or the
      right one is 0 or 1: native code gives the right operand itself, the machine a boolean. */
  lemma AndAgreesIff(l: Source.Expr, r: Source.Expr, vars: Slots, m: Source.Vars, x: Value, y: Value)
    requires BothGive(l, vars, m, x) && BothGive(r, vars, m, y)
    ensures (exists v :: BothGive(Source.LogicalAnd(l, r), vars, m, v))
         <==> Erase(x) == 0 || Erase(y) == 0 || Erase(y) == 1
  {
    var v := Bool(x.Truthy() && y.Truthy());
    assert VmSource.Eval(Source.LogicalAnd(l, r), vars) == Some(v);
    if Erase(x) == 0 || Erase(y) == 0 || Erase(y) == 1 { assert BothGive(Source.LogicalAnd(l, r), vars, m, v); }
  }

  /** `||` exactly when the left one is not 0 or the right one is 0 or 1. */
  lemma OrAgreesIff(l: Source.Expr, r: Source.Expr, vars: Slots, m: Source.Vars, x: Value, y: Value)
    requires BothGive(l, vars, m, x) && BothGive(r, vars, m, y)
    ensures (exists v :: BothGive(Source.LogicalOr(l, r), vars, m, v))
         <==> Erase(x) != 0 || Erase(y) == 0 || Erase(y) == 1
  {
    var v := Bool(x.Truthy() || y.Truthy());
    assert VmSource.Eval(Source.LogicalOr(l, r), vars) == Some(v);
    if Erase(x) != 0 || Erase(y) == 0 || Erase(y) == 1 { assert BothGive(Source.LogicalOr(l, r), vars, m, v); }
  }

  // ----- guards -----

  predicate NeverDivides(e: Source.Expr) {
    match e
    case Literal(_) => true
    case Variable(_) => true
    case Binary(op, l, r) => !op.Slash? && !op.Percent? && NeverDivides(l) && NeverDivides(r)
    case Unary(_, a) => NeverDivides(a)
    case LogicalAnd(l, r) => NeverDivides(l) && NeverDivides(r)
    case LogicalOr(l, r) => NeverDivides(l) && NeverDivides(r)
    case NullCoalesce(l, r) => NeverDivides(l) && NeverDivides(r)
  }

  /** No `&&` or `||` has a division in the operand it may skip. */
  predicate ExprUnguarded(e: Source.Expr) {
    match e
    case Literal(_) => true
    case Variable(_) => true
    case Binary(_, l, r) => ExprUnguarded(l) && ExprUnguarded(r)
    case Unary(_, a) => ExprUnguarded(a)
    case LogicalAnd(l, r) => ExprUnguarded(l) && NeverDivides(r)
    case LogicalOr(l, r) => ExprUnguarded(l) && NeverDivides(r)
    case NullCoalesce(l, r) => ExprUnguarded(l) && NeverDivides(r)
  }

  predicate Unguarded(s: Source.Stmt) {
    match s
    case Let(_, e) => ExprUnguarded(e)
    case Assign(_, e) => ExprUnguarded(e)
    case Print(e) => ExprUnguarded(e)
    case ExprStmt(e) => ExprUnguarded(e)
    case If(c, t, els) => ExprUnguarded(c) && Unguarded(t) && (els.Some? ==> Unguarded(els.value))
    case While(c, b) => ExprUnguarded(c) && Unguarded(b)
    case Block(ss) => forall i :: 0 <= i < |ss| ==> Unguarded(ss[i])
    case Break => true
    case Continue => true
    case Return(e) => ExprUnguarded(e)
  }

  lemma {:induction false} NoDivisionNoTrap(e: Source.Expr, types: Types, m: Source.Vars)
    requires TypeOf(e, types).Some? && NeverDivides(e)
    ensures Total(e, m) && Source.Eval(e, m, []).Some?
  {
    match e
    case Binary(_, l, r) =>
      NoDivisionNoTrap(l, types, m);
      NoDivisionNoTrap(r, types, m);
    case Unary(_, a) => NoDivisionNoTrap(a, types, m);
    case LogicalAnd(l, r) =>
      NoDivisionNoTrap(l, types, m);
      NoDivisionNoTrap(r, types, m);
    case LogicalOr(l, r) =>
      NoDivisionNoTrap(l, types, m);
      NoDivisionNoTrap(r, types, m);
    case _ =>
  }

  /** Without a division to skip, natively too an expression has a value only when no operand traps. */
  lemma {:induction false} UnguardedTotal(e: Source.Expr, types: Types, m: Source.Vars)
    requires TypeOf(e, types).Some? && ExprUnguarded(e)
    ensures Total(e, m) <==> Source.Eval(e, m, []).Some?
  {
    match e
    case Binary(_, l, r) =>
      UnguardedTotal(l, types, m);
      UnguardedTotal(r, types, m);
    case Unary(_, a) => UnguardedTotal(a, types, m);
    case LogicalAnd(l, r) =>
      UnguardedTotal(l, types, m);
      NoDivisionNoTrap(r, types, m);
    case LogicalOr(l, r) =>
      UnguardedTotal(l, types, m);
      NoDivisionNoTrap(r, types, m);
    case _ =>
  }
}
