/** What a statement means to the virtual machine: values keep their kind, slots hold variables, and both
    operands of `&&` and `||` are always evaluated. */
module VmSource {
  import opened Wrappers
  import opened VirtualMachine
  import opened Scoping
  import Source

  type Slots = seq<Value>

  /** None stands for an error. There is no meaning for `??`. */
  function Eval(e: Source.Expr, vars: Slots): Option<Value> {
    match e
    case Literal(c) => Some(ValueOf(c))
    case Variable(v) => if v < |vars| then Some(vars[v]) else None
    case Binary(op, l, r) => Both(Opcode.Binary(op), Eval(l, vars), Eval(r, vars))
    case Unary(op, a) => (match Eval(a, vars) case None => None case Some(x) => ApplyUnary(op, x))
    case LogicalAnd(l, r) => Both(And, Eval(l, vars), Eval(r, vars))
    case LogicalOr(l, r) => Both(Or, Eval(l, vars), Eval(r, vars))
    case NullCoalesce(_, _) => None
  }

  function Both(op: Opcode, a: Option<Value>, b: Option<Value>): Option<Value> {
    if a.None? || b.None? then None
    else
      match op
      case Binary(o) => ApplyBinary(o, a.value, b.value)
      case And => Some(Bool(a.value.Truthy() && b.value.Truthy()))
      case Or => Some(Bool(a.value.Truthy() || b.value.Truthy()))
      case _ => None
  }

  datatype Flow =
    | Next(vars: Slots, out: seq<Value>)
    | Broke(vars: Slots, out: seq<Value>)
    | Continued(vars: Slots, out: seq<Value>)
    | Returned(value: Value, out: seq<Value>)
    | Trapped(out: seq<Value>)
    | OutOfFuel(out: seq<Value>)

  function Store(v: Source.Var, x: Option<Value>, vars: Slots, out: seq<Value>): Flow {
    if x.None? || v >= |vars| then Trapped(out) else Next(vars[v := x.value], out)
  }

  /** Fuel bounds the loop iterations along the way. */
  function Exec(s: Source.Stmt, vars: Slots, out: seq<Value>, fuel: nat): Flow
    decreases fuel, s, 0
  {
    match s
    case Let(v, e) => Store(v, Eval(e, vars), vars, out)
    case Assign(v, e) => Store(v, Eval(e, vars), vars, out)
    case Print(e) =>
      (match Eval(e, vars) case None => Trapped(out) case Some(x) => Next(vars, out + [x]))
    case ExprStmt(e) =>
      (match Eval(e, vars) case None => Trapped(out) case Some(_) => Next(vars, out))
    case If(c, t, els) =>
      (match Eval(c, vars)
       case None => Trapped(out)
       case Some(x) =>
         if x.Truthy() then Exec(t, vars, out, fuel)
         else match els
              case None => Next(vars, out)
              case Some(b) => Exec(b, vars, out, fuel))
    case While(c, b) =>
      if fuel == 0 then OutOfFuel(out)
      else (match Eval(c, vars)
            case None => Trapped(out)
            case Some(x) =>
              if !x.Truthy() then Next(vars, out)
              else AfterBody(Exec(b, vars, out, fuel - 1), s, fuel))
    case Block(ss) => ExecAll(ss, vars, out, fuel)
    case Break => Broke(vars, out)
    case Continue => Continued(vars, out)
    case Return(e) =>
      (match Eval(e, vars) case None => Trapped(out) case Some(x) => Flow.Returned(x, out))
  }

  function AfterBody(r: Flow, loop: Source.Stmt, fuel: nat): Flow
    requires fuel > 0
    decreases fuel - 1, loop, 1
  {
    match r
    case Next(v, o) => Exec(loop, v, o, fuel - 1)
    case Continued(v, o) => Exec(loop, v, o, fuel - 1)
    case Broke(v, o) => Next(v, o)
    case _ => r
  }

  function ExecAll(ss: seq<Source.Stmt>, vars: Slots, out: seq<Value>, fuel: nat): Flow
    decreases fuel, ss, 0
  {
    if ss == [] then Next(vars, out)
    else match Exec(ss[0], vars, out, fuel)
      case Next(v, o) => ExecAll(ss[1..], v, o, fuel)
      case r => r
  }

  /** Every variable has a slot in a frame of n slots. */
  predicate ExprFits(e: Source.Expr, n: nat) {
    match e
    case Literal(_) => true
    case Variable(v) => v < n
    case Binary(_, l, r) => ExprFits(l, n) && ExprFits(r, n)
    case Unary(_, a) => ExprFits(a, n)
    case LogicalAnd(l, r) => ExprFits(l, n) && ExprFits(r, n)
    case LogicalOr(l, r) => ExprFits(l, n) && ExprFits(r, n)
    case NullCoalesce(l, r) => ExprFits(l, n) && ExprFits(r, n)
  }

  predicate Fits(s: Source.Stmt, n: nat) {
    match s
    case Let(v, e) => v < n && ExprFits(e, n)
    case Assign(v, e) => v < n && ExprFits(e, n)
    case Print(e) => ExprFits(e, n)
    case ExprStmt(e) => ExprFits(e, n)
    case If(c, t, els) => ExprFits(c, n) && Fits(t, n) && (els.Some? ==> Fits(els.value, n))
    case While(c, b) => ExprFits(c, n) && Fits(b, n)
    case Block(ss) => forall i :: 0 <= i < |ss| ==> Fits(ss[i], n)
    case Break => true
    case Continue => true
    case Return(e) => ExprFits(e, n)
  }

  function Below(n: nat): (vs: set<nat>)
    ensures forall v: nat :: v in vs <==> v < n
  {
    if n == 0 then {} else Below(n - 1) + {n - 1}
  }

  /** A frame is large enough exactly when it has a slot for each variable that is read, assigned or declared. */
  lemma {:induction false} FitsIff(s: Source.Stmt, n: nat)
    ensures Fits(s, n) <==> StmtVars(s) <= Below(n)
    decreases s, 0
  {
    match s
    case Let(_, e) => ExprFitsIff(e, n);
    case Assign(_, e) => ExprFitsIff(e, n);
    case Print(e) => ExprFitsIff(e, n);
    case ExprStmt(e) => ExprFitsIff(e, n);
    case Return(e) => ExprFitsIff(e, n);
    case If(c, t, els) =>
      ExprFitsIff(c, n);
      FitsIff(t, n);
      if els.Some? { FitsIff(els.value, n); }
    case While(c, b) =>
      ExprFitsIff(c, n);
      FitsIff(b, n);
    case Block(ss) => AllFitIff(ss, n);
    case Break =>
    case Continue =>
  }

  lemma {:induction false} AllFitIff(ss: seq<Source.Stmt>, n: nat)
    ensures (forall i :: 0 <= i < |ss| ==> Fits(ss[i], n)) <==> AllVars(ss) <= Below(n)
    decreases ss, 1
  {
    if ss != [] {
      FitsIff(ss[0], n);
      AllFitIff(ss[1..], n);
      assert (forall i :: 0 <= i < |ss| ==> Fits(ss[i], n))
        <==> Fits(ss[0], n) && forall i :: 0 <= i < |ss[1..]| ==> Fits(ss[1..][i], n);
    }
  }

  lemma {:induction false} ExprFitsIff(e: Source.Expr, n: nat)
    ensures ExprFits(e, n) <==> ExprVars(e) <= Below(n)
  {
    match e
    case Binary(_, l, r) =>
      ExprFitsIff(l, n);
      ExprFitsIff(r, n);
    case Unary(_, a) => ExprFitsIff(a, n);
    case LogicalAnd(l, r) =>
      ExprFitsIff(l, n);
      ExprFitsIff(r, n);
    case LogicalOr(l, r) =>
      ExprFitsIff(l, n);
      ExprFitsIff(r, n);
    case NullCoalesce(l, r) =>
      ExprFitsIff(l, n);
      ExprFitsIff(r, n);
    case _ =>
  }

  /** The variables in a statement. */
  function StmtVars(s: Source.Stmt): set<Source.Var>
    decreases s, 0
  {
    match s
    case Let(v, e) => {v} + ExprVars(e)
    case Assign(v, e) => {v} + ExprVars(e)
    case Print(e) => ExprVars(e)
    case ExprStmt(e) => ExprVars(e)
    case Return(e) => ExprVars(e)
    case If(c, t, els) => ExprVars(c) + StmtVars(t) + (match els case None => {} case Some(e) => StmtVars(e))
    case While(c, b) => ExprVars(c) + StmtVars(b)
    case Block(ss) => AllVars(ss)
    case Break => {}
    case Continue => {}
  }

  function AllVars(ss: seq<Source.Stmt>): set<Source.Var>
    decreases ss, 1
  {
    if ss == [] then {} else StmtVars(ss[0]) + AllVars(ss[1..])
  }
}
