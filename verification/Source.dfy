/** The structured language and its meaning. */
module Source {
  import opened Wrappers
  import Hir

  type Var = Hir.Var

  datatype BinaryOp =
    | Plus | Minus | Star | Slash | Percent
    | EqualEqual | NotEqual | Less | LessEqual | Greater | GreaterEqual

  datatype UnaryOp = Negate | LogicalNot

  datatype Constant = Number(n: int) | Boolean(b: bool)
  {
    /** A boolean is 1 or 0 in native code. */
    function Word(): int {
      match this case Number(k) => k case Boolean(c) => Truth(c)
    }
  }

  /** Expressions read variables but never write them. */
  datatype Expr =
    | Literal(c: Constant)
    | Variable(v: Var)
    | Binary(binary: BinaryOp, left: Expr, right: Expr)
    | Unary(unary: UnaryOp, operand: Expr)
    | LogicalAnd(left: Expr, right: Expr)
    | LogicalOr(left: Expr, right: Expr)
    | NullCoalesce(left: Expr, right: Expr)

  datatype Stmt =
    | Let(v: Var, init: Expr)
    | Assign(v: Var, value: Expr)
    | Print(e: Expr)
    | ExprStmt(e: Expr)
    | If(condition: Expr, thenBranch: Stmt, elseBranch: Option<Stmt>)
    | While(condition: Expr, body: Stmt)
    | Block(statements: seq<Stmt>)
    | Break
    | Continue
    | Return(e: Expr)

  datatype Function = Function(params: seq<Var>, body: Stmt)

  type Vars = map<Var, int>

  function Truth(b: bool): int { if b then 1 else 0 }

  /** Division rounds toward zero and the remainder has the sign of the dividend; dividing by zero traps. */
  function EvalBinary(op: BinaryOp, x: int, y: int): Option<int> {
    match op
    case Plus => Some(x + y)
    case Minus => Some(x - y)
    case Star => Some(x * y)
    case Slash => if y == 0 then None else Some(Hir.Quotient(x, y))
    case Percent => if y == 0 then None else Some(x - y * Hir.Quotient(x, y))
    case EqualEqual => Some(Truth(x == y))
    case NotEqual => Some(Truth(x != y))
    case Less => Some(Truth(x < y))
    case LessEqual => Some(Truth(x <= y))
    case Greater => Some(Truth(x > y))
    case GreaterEqual => Some(Truth(x >= y))
  }

  function EvalUnary(op: UnaryOp, x: int): int {
    match op
    case Negate => -x
    case LogicalNot => Truth(x == 0)
  }

  /** None when evaluation traps. The right operand of a short-circuit operator runs only when needed. */
  function Eval(e: Expr, vars: Vars, params: seq<int>): Option<int> {
    match e
    case Literal(c) => Some(c.Word())
    case Variable(v) => Some(Hir.Get(vars, v))
    case Binary(op, l, r) =>
      (match Eval(l, vars, params)
       case None => None
       case Some(x) =>
         match Eval(r, vars, params)
         case None => None
         case Some(y) => EvalBinary(op, x, y))
    case Unary(op, a) =>
      (match Eval(a, vars, params)
       case None => None
       case Some(x) => Some(EvalUnary(op, x)))
    case LogicalAnd(l, r) =>
      (match Eval(l, vars, params)
       case None => None
       case Some(x) => if x != 0 then Eval(r, vars, params) else Some(0))
    case LogicalOr(l, r) =>
      (match Eval(l, vars, params)
       case None => None
       case Some(x) => if x != 0 then Some(1) else Eval(r, vars, params))
    case NullCoalesce(l, r) =>
      (match Eval(l, vars, params)
       case None => None
       case Some(x) => if x != 0 then Some(x) else Eval(r, vars, params))
  }

  /** How a statement ends. */
  datatype Flow =
    | Next(vars: Vars, out: seq<int>)
    | Broke(vars: Vars, out: seq<int>)
    | Continued(vars: Vars, out: seq<int>)
    | Returned(value: int, out: seq<int>)
    | Trapped(out: seq<int>)
    | OutOfFuel(out: seq<int>)

  /** Fuel bounds the loop iterations along the way; with enough of it a run that ends reaches its end. */
  function Exec(s: Stmt, vars: Vars, out: seq<int>, params: seq<int>, fuel: nat): Flow
    decreases fuel, s, 0
  {
    match s
    case Let(v, e) =>
      (match Eval(e, vars, params)
       case None => Trapped(out)
       case Some(x) => Next(vars[v := x], out))
    case Assign(v, e) =>
      (match Eval(e, vars, params)
       case None => Trapped(out)
       case Some(x) => Next(vars[v := x], out))
    case Print(e) =>
      (match Eval(e, vars, params)
       case None => Trapped(out)
       case Some(x) => Next(vars, out + [x]))
    case ExprStmt(e) =>
      (match Eval(e, vars, params)
       case None => Trapped(out)
       case Some(_) => Next(vars, out))
    case If(c, t, els) =>
      (match Eval(c, vars, params)
       case None => Trapped(out)
       case Some(x) =>
         if x != 0 then Exec(t, vars, out, params, fuel)
         else match els
              case None => Next(vars, out)
              case Some(b) => Exec(b, vars, out, params, fuel))
    case While(c, b) =>
      if fuel == 0 then OutOfFuel(out)
      else (match Eval(c, vars, params)
            case None => Trapped(out)
            case Some(x) =>
              if x == 0 then Next(vars, out)
              else AfterBody(Exec(b, vars, out, params, fuel - 1), s, params, fuel))
    case Block(ss) => ExecAll(ss, vars, out, params, fuel)
    case Break => Broke(vars, out)
    case Continue => Continued(vars, out)
    case Return(e) =>
      (match Eval(e, vars, params)
       case None => Trapped(out)
       case Some(x) => Returned(x, out))
  }

  function AfterBody(r: Flow, loop: Stmt, params: seq<int>, fuel: nat): Flow
    requires fuel > 0
    decreases fuel - 1, loop, 1
  {
    match r
    case Next(v, o) => Exec(loop, v, o, params, fuel - 1)
    case Continued(v, o) => Exec(loop, v, o, params, fuel - 1)
    case Broke(v, o) => Next(v, o)
    case _ => r
  }

  function ExecAll(ss: seq<Stmt>, vars: Vars, out: seq<int>, params: seq<int>, fuel: nat): Flow
    decreases fuel, ss, 0
  {
    if ss == [] then Next(vars, out)
    else match Exec(ss[0], vars, out, params, fuel)
      case Next(v, o) => ExecAll(ss[1..], v, o, params, fuel)
      case r => r
  }

  /** break and continue only occur inside loops. */
  predicate LoopsOk(s: Stmt, inLoop: bool) {
    match s
    case Break => inLoop
    case Continue => inLoop
    case If(_, t, els) => LoopsOk(t, inLoop) && (els.Some? ==> LoopsOk(els.value, inLoop))
    case While(_, b) => LoopsOk(b, true)
    case Block(ss) => forall i :: 0 <= i < |ss| ==> LoopsOk(ss[i], inLoop)
    case _ => true
  }

  /** The first n parameters hold the arguments; one without an argument holds 0. */
  function Arguments(names: seq<Var>, args: seq<int>, n: nat): Vars
    requires n <= |names|
  {
    if n == 0 then map[]
    else Arguments(names, args, n - 1)[names[n - 1] := if n - 1 < |args| then args[n - 1] else 0]
  }

  function Call(f: Function, args: seq<int>, fuel: nat): Flow {
    Exec(f.body, Arguments(f.params, args, |f.params|), [], args, fuel)
  }
}
