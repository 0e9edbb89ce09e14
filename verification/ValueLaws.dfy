/** What the operators compute: division, and arithmetic, order, equality and truth on values of all kinds, each by
    its relation to the others and to integers. */
module ValueLaws {
  import opened Wrappers
  import opened ValueTypes
  import opened VirtualMachine
  import opened VmSource
  import Source

  // ----- division -----

  function Magnitude(a: int): nat {
    if a < 0 then -a else a
  }

  /** q is x divided by y rounded toward zero, and r what is left over. */
  predicate Divides(x: int, y: int, q: int, r: int) {
    y != 0 && x == y * q + r && Magnitude(r) < Magnitude(y) && (r == 0 || (r < 0 <==> x < 0))
  }

  /** `/` and `%` give q and r exactly when r has the sign of x, is smaller than y, and x is y times q plus r. */
  lemma DivisionIff(x: int, y: int, q: int, r: int)
    ensures Source.EvalBinary(Source.Slash, x, y) == Some(q) && Source.EvalBinary(Source.Percent, x, y) == Some(r)
       <==> Divides(x, y, q, r)
  {
    if y != 0 {
      var p, s := Source.EvalBinary(Source.Slash, x, y).value, Source.EvalBinary(Source.Percent, x, y).value;
      DivisionDivides(x, y, p, s);
      if Divides(x, y, q, r) { DividesOnce(x, y, q, r, p, s); }
    }
  }

  lemma DivisionDivides(x: int, y: int, q: int, r: int)
    requires y != 0 && Source.EvalBinary(Source.Slash, x, y) == Some(q)
    requires Source.EvalBinary(Source.Percent, x, y) == Some(r)
    ensures Divides(x, y, q, r)
  {
    var a: int, b: int := Magnitude(x), Magnitude(y);
    var k: int := a / b;
    assert r == x - y * q;
    assert q == if (x >= 0) == (y > 0) then k else -k;
    SignsOfProduct(x, y, q, k);
    NaturalDivision(a, b, k);
  }

  lemma NaturalDivision(a: int, b: int, k: int)
    requires a >= 0 && b > 0 && k == a / b
    ensures 0 <= a - b * k < b
  {
    assert a == b * (a / b) + a % b;
  }

  lemma SignsOfProduct(x: int, y: int, q: int, k: int)
    requires y != 0 && q == if (x >= 0) == (y > 0) then k else -k
    ensures y * q == if x >= 0 then Magnitude(y) * k else -(Magnitude(y) * k)
  {
    NegatedProduct(y, k);
    NegatedProduct(-y, k);
  }

  lemma NegatedProduct(y: int, k: int)
    ensures y * -k == -(y * k) && -y * k == -(y * k)
  {
  }

  /** There is one such quotient and remainder. */
  lemma DividesOnce(x: int, y: int, q: int, r: int, p: int, s: int)
    requires Divides(x, y, q, r) && Divides(x, y, p, s)
    ensures q == p && r == s
  {
    assert y * (q - p) == y * q - y * p;
    assert Magnitude(s - r) < Magnitude(y);
    if q != p { ProductIsLarge(y, q - p); }
  }

  lemma ProductIsLarge(y: int, k: int)
    requires k != 0
    ensures Magnitude(y * k) >= Magnitude(y)
  {
    NegatedProduct(y, k);
    NegatedProduct(-y, k);
    if k > 0 { ProductGrows(Magnitude(y), k); } else { ProductGrows(Magnitude(y), -k); }
  }

  lemma ProductGrows(b: int, n: int)
    requires b >= 0 && n > 0
    ensures b * n >= b
  {
    assert b * n == b * (n - 1) + b;
    assert b * (n - 1) >= 0;
  }

  // ----- numbers and booleans -----

  /** An integer when both operands are, else the double of the same size. */
  function Result(a: Value, b: Value, k: int): Value {
    if a.Int? && b.Int? then Int(k) else Double(k as real)
  }

  /** On numbers and booleans the machine's operators follow the integer ones on their words. Mixed kinds are
      compared by size; other mixed arithmetic gives the double of the size, and its division is exact. */
  lemma OnWords(op: Source.BinaryOp, a: Value, b: Value)
    requires IsWord(a) && IsWord(b)
    ensures var (x, y, r, v) := (Erase(a), Erase(b), ApplyBinary(op, a, b), Source.EvalBinary(op, Erase(a), Erase(b)));
            match op
            case Plus => v.Some? && r == Some(Result(a, b, v.value))
            case Minus => v.Some? && r == Some(Result(a, b, v.value))
            case Star => v.Some? && r == Some(Result(a, b, v.value))
            case Slash =>
              && (r.Some? <==> y != 0)
              && (r.Some? ==> if a.Int? && b.Int? then v.Some? && r == Some(Int(v.value))
                              else r.value.Double? && r.value.x * y as real == x as real)
            case Percent => r == (match v case None => None case Some(k) => Some(Int(k)))
            case _ => v.Some? && r == Some(Bool(v.value == 1)) && (v.value == 0 || v.value == 1)
  {
  }

  lemma NegationOnWords(a: Value)
    requires IsWord(a)
    ensures var k := Source.EvalUnary(Source.Negate, Erase(a));
            ApplyUnary(Source.Negate, a) == Some(if a.Int? then Int(k) else Double(k as real))
  {
  }

  // ----- numbers of all kinds -----

  /** The machine finds v and w equal. */
  predicate Same(v: Option<Value>, w: Option<Value>) {
    v.Some? && w.Some? && ApplyBinary(Source.EqualEqual, v.value, w.value) == Some(Bool(true))
  }

  predicate Holds(op: Source.BinaryOp, a: Value, b: Value) {
    ApplyBinary(op, a, b) == Some(Bool(true))
  }

  function Add(a: Option<Value>, b: Option<Value>): Option<Value> {
    Both(Opcode.Binary(Source.Plus), a, b)
  }

  function Multiply(a: Option<Value>, b: Option<Value>): Option<Value> {
    Both(Opcode.Binary(Source.Star), a, b)
  }

  // The laws follow from what the operators do to sizes.

  lemma {:induction false} RealOfProduct(m: int, n: int)
    ensures (m * n) as real == m as real * n as real
    decreases if n < 0 then -n else n
  {
    if n > 0 {
      RealOfProduct(m, n - 1);
      assert m * n == m * (n - 1) + m;
      RealStep(m as real, (n - 1) as real);
    } else if n < 0 {
      RealOfProduct(m, n + 1);
      assert m * n == m * (n + 1) - m;
      RealStep(m as real, n as real);
    }
  }

  lemma RealStep(x: real, y: real)
    ensures x * (y + 1.0) == x * y + x
  {
  }

  predicate HasSize(v: Option<Value>, x: real) {
    v.Some? && v.value.IsNumber() && v.value.ToDouble() == x
  }

  lemma SizeOfSum(a: Value, b: Value)
    requires a.IsNumber() && b.IsNumber()
    ensures HasSize(Add(Some(a), Some(b)), a.ToDouble() + b.ToDouble())
    ensures HasSize(ApplyBinary(Source.Minus, a, b), a.ToDouble() - b.ToDouble())
  {
  }

  /** A name for the product of sizes, so that proofs can do without its definition. */
  function Times(x: real, y: real): real {
    x * y
  }

  lemma TimesLaws(x: real, y: real, z: real)
    ensures Times(x, y) == Times(y, x) && Times(x, 1.0) == x
    ensures Times(x, y + z) == Times(x, y) + Times(x, z)
  {
  }

  lemma SizeOfProduct(a: Value, b: Value)
    requires a.IsNumber() && b.IsNumber()
    ensures HasSize(Multiply(Some(a), Some(b)), Times(a.ToDouble(), b.ToDouble()))
  {
    if a.Int? && b.Int? { RealOfProduct(a.n, b.n); }
  }

  lemma SameSize(v: Option<Value>, w: Option<Value>, x: real)
    requires HasSize(v, x) && HasSize(w, x)
    ensures Same(v, w)
  {
  }

  /** `==` is an equivalence on numbers, and garbage equals nothing. */
  lemma EqualityLaws(a: Value, b: Value, c: Value)
    ensures Holds(Source.EqualEqual, a, a) <==> a.IsNumber()
    ensures Holds(Source.EqualEqual, a, b) <==> Holds(Source.EqualEqual, b, a)
    ensures Holds(Source.EqualEqual, a, b) && Holds(Source.EqualEqual, b, c) ==> Holds(Source.EqualEqual, a, c)
    ensures Holds(Source.NotEqual, a, b) <==> !Holds(Source.EqualEqual, a, b)
  {
  }

  /** Of two numbers exactly one of `<`, `==` and `>` holds; `<=` and `>=` are what they say. */
  lemma OrderLaws(a: Value, b: Value)
    requires a.IsNumber() && b.IsNumber()
    ensures Holds(Source.Less, a, b) || Holds(Source.EqualEqual, a, b) || Holds(Source.Greater, a, b)
    ensures !(Holds(Source.Less, a, b) && Holds(Source.EqualEqual, a, b))
    ensures !(Holds(Source.Less, a, b) && Holds(Source.Greater, a, b))
    ensures !(Holds(Source.EqualEqual, a, b) && Holds(Source.Greater, a, b))
    ensures Holds(Source.Less, a, b) <==> Holds(Source.Greater, b, a)
    ensures Holds(Source.LessEqual, a, b) <==> Holds(Source.Less, a, b) || Holds(Source.EqualEqual, a, b)
    ensures Holds(Source.GreaterEqual, a, b) <==> Holds(Source.Greater, a, b) || Holds(Source.EqualEqual, a, b)
  {
  }

  /** a is less than b exactly when something positive added to a gives b. */
  lemma LessIff(a: Value, b: Value)
    requires a.IsNumber() && b.IsNumber()
    ensures Holds(Source.Less, a, b) <==> exists d: real :: d > 0.0 && Same(Add(Some(a), Some(Double(d))), Some(b))
  {
    if Holds(Source.Less, a, b) {
      var d := b.ToDouble() - a.ToDouble();
      assert Same(Add(Some(a), Some(Double(d))), Some(b));
    }
  }

  lemma SumLaws(a: Value, b: Value, c: Value)
    requires a.IsNumber() && b.IsNumber() && c.IsNumber()
    ensures Same(Add(Some(a), Some(b)), Add(Some(b), Some(a))) && Same(Add(Some(a), Some(Int(0))), Some(a))
    ensures Same(Add(Add(Some(a), Some(b)), Some(c)), Add(Some(a), Add(Some(b), Some(c))))
  {
    hide ApplyBinary, Same, Both, Add;
    var x, y, z := a.ToDouble(), b.ToDouble(), c.ToDouble();
    SizeOfSum(a, b);
    SizeOfSum(b, a);
    SameSize(Add(Some(a), Some(b)), Add(Some(b), Some(a)), x + y);
    SizeOfSum(a, Int(0));
    SameSize(Add(Some(a), Some(Int(0))), Some(a), x);
    SizeOfSum(b, c);
    SizeOfSum(Add(Some(a), Some(b)).value, c);
    SizeOfSum(a, Add(Some(b), Some(c)).value);
    SameSize(Add(Add(Some(a), Some(b)), Some(c)), Add(Some(a), Add(Some(b), Some(c))), x + y + z);
  }

  lemma ProductLaws(a: Value, b: Value, c: Value)
    requires a.IsNumber() && b.IsNumber() && c.IsNumber()
    ensures Same(Multiply(Some(a), Some(b)), Multiply(Some(b), Some(a)))
    ensures Same(Multiply(Some(a), Some(Int(1))), Some(a))
    ensures Same(Multiply(Some(a), Add(Some(b), Some(c))),
                 Add(Multiply(Some(a), Some(b)), Multiply(Some(a), Some(c))))
  {
    hide ApplyBinary, Same, Both, Add, Multiply, Times;
    var x, y, z := a.ToDouble(), b.ToDouble(), c.ToDouble();
    TimesLaws(x, y, z);
    SizeOfProduct(a, b);
    SizeOfProduct(b, a);
    SameSize(Multiply(Some(a), Some(b)), Multiply(Some(b), Some(a)), Times(x, y));
    SizeOfProduct(a, Int(1));
    SameSize(Multiply(Some(a), Some(Int(1))), Some(a), x);
    SizeOfSum(b, c);
    SizeOfProduct(a, c);
    var sum, p, q := Add(Some(b), Some(c)).value, Multiply(Some(a), Some(b)).value, Multiply(Some(a), Some(c)).value;
    SizeOfProduct(a, sum);
    SizeOfSum(p, q);
    SameSize(Multiply(Some(a), Some(sum)), Add(Some(p), Some(q)), Times(x, y + z));
  }

  /** Subtraction undoes addition, and is the addition of the negative. */
  lemma DifferenceLaws(a: Value, b: Value)
    requires a.IsNumber() && b.IsNumber()
    ensures Same(Add(ApplyBinary(Source.Minus, a, b), Some(b)), Some(a))
    ensures Same(Add(Some(a), ApplyUnary(Source.Negate, b)), ApplyBinary(Source.Minus, a, b))
  {
    hide ApplyBinary, Same, Both, Add;
    SizeOfSum(a, b);
    var d := ApplyBinary(Source.Minus, a, b);
    SizeOfSum(d.value, b);
    SameSize(Add(d, Some(b)), Some(a), a.ToDouble());
    SizeOfSum(a, ApplyUnary(Source.Negate, b).value);
    SameSize(Add(Some(a), ApplyUnary(Source.Negate, b)), d, a.ToDouble() - b.ToDouble());
  }

  /** Division of numbers that are not both integers is undone by multiplication; only zero does not divide. */
  lemma QuotientLaws(a: Value, b: Value)
    requires a.IsNumber() && b.IsNumber() && !(a.Int? && b.Int?)
    ensures ApplyBinary(Source.Slash, a, b).None? <==> Holds(Source.EqualEqual, b, Int(0))
    ensures ApplyBinary(Source.Slash, a, b).Some? ==>
              Same(Multiply(ApplyBinary(Source.Slash, a, b), Some(b)), Some(a))
    ensures ApplyBinary(Source.Percent, a, b).Some? ==> IsWord(a) && IsWord(b)
  {
    var x, y, q := a.ToDouble(), b.ToDouble(), ApplyBinary(Source.Slash, a, b);
    if y != 0.0 {
      assert q == Some(Double(x / y));
      QuotientTimes(x, y);
      DivisionUndone(a, b, q.value);
    }
  }

  lemma QuotientTimes(x: real, y: real)
    requires y != 0.0
    ensures Times(x / y, y) == x
  {
  }

  lemma DivisionUndone(a: Value, b: Value, q: Value)
    requires a.IsNumber() && b.IsNumber() && q.IsNumber() && Times(q.ToDouble(), b.ToDouble()) == a.ToDouble()
    ensures Same(Multiply(Some(q), Some(b)), Some(a))
  {
    hide ApplyBinary, Same, Multiply, Times;
    SizeOfProduct(q, b);
    SameSize(Multiply(Some(q), Some(b)), Some(a), a.ToDouble());
  }

  /** Arithmetic and order on garbage are errors. */
  lemma GarbageFails(op: Source.BinaryOp, a: Value, b: Value)
    requires a.Garbage? || b.Garbage?
    ensures ApplyBinary(op, a, b).None? <==> !op.EqualEqual? && !op.NotEqual?
    ensures a.Garbage? ==> ApplyUnary(Source.Negate, a).None? && ApplyUnary(Source.LogicalNot, a) == Some(Bool(true))
  {
  }

  // ----- truth -----

  predicate IsZero(v: Value) {
    Holds(Source.EqualEqual, v, Int(0))
  }

  /** A number of any kind counts as true exactly when it is not equal to 0; `!`, `&&` and `||` go by that. */
  lemma TruthLaws(a: Value, b: Value)
    requires a.IsNumber() && b.IsNumber()
    ensures a.Truthy() <==> Holds(Source.NotEqual, a, Int(0))
    ensures ApplyUnary(Source.LogicalNot, a) == Some(Bool(IsZero(a)))
    ensures Both(And, Some(a), Some(b)) == Some(Bool(!IsZero(a) && !IsZero(b)))
    ensures Both(Or, Some(a), Some(b)) == Some(Bool(!IsZero(a) || !IsZero(b)))
  {
  }

  /** The conditional jump is taken exactly on zero. */
  lemma JumpsOnZero(c: Chunk, base: nat, s: State)
    requires s.Going? && 0 <= s.ip < |c.code| && c.code[s.ip].opcode == JumpIfFalse
    requires s.stack != [] && s.stack[|s.stack| - 1].IsNumber()
    ensures var n := |s.stack| - 1;
            var ip := if IsZero(s.stack[n]) then c.code[s.ip].operand else s.ip + 1;
            Step(c, base, s) == Going(ip, s.stack[..n], s.out)
  {
  }

  /** An `if` takes its else arm exactly when its condition equals 0. */
  lemma IfOnZero(c: Source.Expr, t: Source.Stmt, els: Option<Source.Stmt>, vars: Slots, out: seq<Value>, fuel: nat)
    requires Eval(c, vars).Some? && Eval(c, vars).value.IsNumber()
    ensures Exec(Source.If(c, t, els), vars, out, fuel)
         == if !IsZero(Eval(c, vars).value) then Exec(t, vars, out, fuel)
            else match els case None => Next(vars, out) case Some(e) => Exec(e, vars, out, fuel)
  {
  }

  /** A loop with fuel left ends exactly when its condition equals 0, and otherwise runs its body. */
  lemma LoopOnZero(c: Source.Expr, b: Source.Stmt, vars: Slots, out: seq<Value>, fuel: nat)
    requires fuel > 0 && Eval(c, vars).Some? && Eval(c, vars).value.IsNumber()
    ensures Exec(Source.While(c, b), vars, out, fuel)
         == if IsZero(Eval(c, vars).value) then Next(vars, out)
            else AfterBody(Exec(b, vars, out, fuel - 1), Source.While(c, b), fuel)
  {
  }
}
