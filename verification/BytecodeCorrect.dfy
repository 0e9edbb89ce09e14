/** The machine running compiled code does what the statement means. */
module BytecodeCorrect {
  import opened Wrappers
  import opened VirtualMachine
  import opened BytecodeLayout
  import opened VmSource
  import Source

  /** The frame's slots are on the stack, above whatever is below the frame. */
  ghost predicate Holds(stack: seq<Value>, base: nat, vars: Slots) {
    base + |vars| <= |stack| && stack[base..base + |vars|] == vars
  }

  lemma SlotAt(stack: seq<Value>, base: nat, vars: Slots, v: nat)
    requires Holds(stack, base, vars) && v < |vars|
    ensures stack[base + v] == vars[v]
  {
    assert stack[base..base + |vars|][v] == vars[v];
  }

  lemma HoldsMore(stack: seq<Value>, base: nat, vars: Slots, x: Value)
    requires Holds(stack, base, vars)
    ensures Holds(stack + [x], base, vars)
  {
    assert (stack + [x])[base..base + |vars|] == stack[base..base + |vars|];
  }

  /** Where the machine is after the code of an expression: one more value on the stack, or an error. */
  function After(x: Option<Value>, ip: nat, stack: seq<Value>, out: seq<Value>): State {
    match x case None => Failed(out) case Some(v) => Going(ip, stack + [v], out)
  }

  /** An expression leaves exactly one value more on the stack, and nothing else changed. */
  lemma {:induction false} ExprRuns(c: Chunk, base: nat, p: nat, e: Source.Expr, stack: seq<Value>, vars: Slots,
                                    out: seq<Value>) returns (n: nat)
    requires ExprAt(c, p, e) && Holds(stack, base, vars) && ExprFits(e, |vars|)
    ensures Run(c, base, Going(p, stack, out), n) == After(Eval(e, vars), p + ExprSize(e), stack, out)
    decreases ExprSize(e)
  {
    hide BothAt, Both, Holds, Step, Run;
    match e
    case Literal(k) => n := LoadStep(c, base, p, e, stack, vars, out);
    case Variable(v) => n := LoadStep(c, base, p, e, stack, vars, out);
    case Binary(op, l, r) => n := BothRun(c, base, p, l, r, Opcode.Binary(op), stack, vars, out);
    case Unary(op, a) =>
      n := ExprRuns(c, base, p, a, stack, vars, out);
      if Eval(a, vars).Some? {
        n := UnaryStep(c, base, Going(p, stack, out), n, p + ExprSize(a), op, stack, Eval(a, vars).value, out);
      }
    case LogicalAnd(l, r) => n := BothRun(c, base, p, l, r, And, stack, vars, out);
    case LogicalOr(l, r) => n := BothRun(c, base, p, l, r, Or, stack, vars, out);
  }

  lemma LoadStep(c: Chunk, base: nat, p: nat, e: Source.Expr, stack: seq<Value>, vars: Slots, out: seq<Value>)
    returns (n: nat)
    requires (e.Literal? || e.Variable?) && ExprAt(c, p, e) && Holds(stack, base, vars) && ExprFits(e, |vars|)
    ensures Run(c, base, Going(p, stack, out), n) == After(Eval(e, vars), p + 1, stack, out)
  {
    if e.Variable? { SlotAt(stack, base, vars, e.v); }
    n := 1;
    assert Run(c, base, Going(p, stack, out), 0) == Going(p, stack, out);
    assert stack[..|stack|] == stack;
  }

  lemma UnaryStep(c: Chunk, base: nat, s: State, k: nat, p: nat, op: Source.UnaryOp, stack: seq<Value>, x: Value,
                  out: seq<Value>) returns (n: nat)
    requires Run(c, base, s, k) == Going(p, stack + [x], out) && IsAt(c, p, Opcode.Unary(op), -1)
    ensures Run(c, base, s, n) == After(ApplyUnary(op, x), p + 1, stack, out)
  {
    n := k + 1;
    assert (stack + [x])[..|stack|] == stack;
  }

  lemma BothStep(c: Chunk, base: nat, s: State, k: nat, p: nat, op: Opcode, stack: seq<Value>, x: Value, y: Value,
                 out: seq<Value>) returns (n: nat)
    requires Run(c, base, s, k) == Going(p, stack + [x] + [y], out) && IsAt(c, p, op, -1)
    requires op.Binary? || op.And? || op.Or?
    ensures Run(c, base, s, n) == After(Both(op, Some(x), Some(y)), p + 1, stack, out)
  {
    n := k + 1;
    var t := stack + [x] + [y];
    assert t[..|stack|] == stack && t[|stack|] == x && t[|stack| + 1] == y;
  }

  lemma BothTraps(op: Opcode, a: Option<Value>, b: Option<Value>)
    ensures a.None? || b.None? ==> Both(op, a, b) == None
  {
  }

  lemma {:induction false} BothRun(c: Chunk, base: nat, p: nat, l: Source.Expr, r: Source.Expr, op: Opcode,
                                   stack: seq<Value>, vars: Slots, out: seq<Value>) returns (n: nat)
    requires BothAt(c, p, l, r, op) && Holds(stack, base, vars) && ExprFits(l, |vars|) && ExprFits(r, |vars|)
    requires op.Binary? || op.And? || op.Or?
    ensures Run(c, base, Going(p, stack, out), n)
         == After(Both(op, Eval(l, vars), Eval(r, vars)), p + ExprSize(l) + ExprSize(r) + 1, stack, out)
    decreases ExprSize(l) + ExprSize(r)
  {
    hide ExprAt, Eval, ExprSize, ExprFits, Holds, Step, Run, Both;
    BothTraps(op, Eval(l, vars), Eval(r, vars));
    var s := Going(p, stack, out);
    n := ExprRuns(c, base, p, l, stack, vars, out);
    if Eval(l, vars).Some? {
      var x := Eval(l, vars).value;
      HoldsMore(stack, base, vars, x);
      var k := ExprRuns(c, base, p + ExprSize(l), r, stack + [x], vars, out);
      RunSum(c, base, s, n, k);
      n := n + k;
      if Eval(r, vars).Some? {
        n := BothStep(c, base, s, n, p + ExprSize(l) + ExprSize(r), op, stack, x, Eval(r, vars).value, out);
      }
    }
  }

  // ----- statements -----

  /** Running from s for n instructions does what the flow r says: go on at `next`, at the target of breaks or
      of continues, with the frame's slots as in r and nothing else on top of what is below the frame; return
      to the caller, whose stack has got the value in place of the function; or stop. */
  ghost predicate Does(c: Chunk, below: seq<Value>, s: State, next: nat, cont: int, brk: int, r: Flow, fuel: nat,
                       n: nat)
    requires below != []
  {
    var t := Run(c, |below|, s, n);
    match r
    case Next(v, o) => t == Going(next, below + v, o)
    case Broke(v, o) => t == Going(brk, below + v, o)
    case Continued(v, o) => t == Going(cont, below + v, o)
    case Returned(x, o) => t == State.Returned(below[..|below| - 1] + [x], o)
    case Trapped(o) => t == Failed(o)
    case OutOfFuel(o) => t.Going? && t.out == o && n >= fuel
  }

  lemma DoesLater(c: Chunk, below: seq<Value>, s: State, k: nat, t: State, next: nat, cont: int, brk: int, r: Flow,
                  fuel: nat, n: nat, more: nat)
    requires below != [] && Run(c, |below|, s, k) == t && Does(c, below, t, next, cont, brk, r, fuel, n)
    requires more <= fuel + k
    ensures Does(c, below, s, next, cont, brk, r, more, k + n)
  {
    RunSum(c, |below|, s, k, n);
  }

  function SlotsOf(r: Flow): Option<Slots> {
    match r
    case Next(v, _) => Some(v)
    case Broke(v, _) => Some(v)
    case Continued(v, _) => Some(v)
    case _ => None
  }

  /** The frame keeps its size. */
  lemma {:induction false} FrameKept(s: Source.Stmt, vars: Slots, out: seq<Value>, fuel: nat)
    ensures var r := SlotsOf(Exec(s, vars, out, fuel)); r.Some? ==> |r.value| == |vars|
    decreases fuel, s, 0
  {
    match s
    case If(_, t, els) =>
      FrameKept(t, vars, out, fuel);
      if els.Some? { FrameKept(els.value, vars, out, fuel); }
    case While(_, b) =>
      if fuel > 0 {
        FrameKept(b, vars, out, fuel - 1);
        var r := Exec(b, vars, out, fuel - 1);
        if r.Next? || r.Continued? { FrameKept(s, r.vars, r.out, fuel - 1); }
      }
    case Block(ss) => AllFrameKept(ss, vars, out, fuel);
    case _ =>
  }

  lemma {:induction false} AllFrameKept(ss: seq<Source.Stmt>, vars: Slots, out: seq<Value>, fuel: nat)
    ensures var r := SlotsOf(ExecAll(ss, vars, out, fuel)); r.Some? ==> |r.value| == |vars|
    decreases fuel, ss, 1
  {
    if ss != [] {
      FrameKept(ss[0], vars, out, fuel);
      var r := Exec(ss[0], vars, out, fuel);
      if r.Next? { AllFrameKept(ss[1..], r.vars, r.out, fuel); }
    }
  }

  lemma InFrame(below: seq<Value>, vars: Slots)
    ensures Holds(below + vars, |below|, vars)
  {
    assert (below + vars)[|below|..|below| + |vars|] == vars;
  }

  lemma StoreRuns(c: Chunk, below: seq<Value>, s: State, k: nat, p: nat, v: nat, x: Value, vars: Slots, out: seq<Value>)
    requires below != [] && v < |vars| && Run(c, |below|, s, k) == Going(p, below + vars + [x], out)
    requires IsAt(c, p, StoreLocal, v) && IsAt(c, p + 1, Pop, -1)
    ensures Run(c, |below|, s, k + 2) == Going(p + 2, below + vars[v := x], out)
  {
    var base := |below|;
    var t := below + vars + [x];
    var u := t[base + v := x];
    assert Run(c, base, s, k + 1) == Going(p + 1, u, out);
    assert u[..|u| - 1] == below + vars[v := x];
  }

  lemma {:induction false} LetRuns(c: Chunk, below: seq<Value>, p: nat, v: nat, e: Source.Expr, vars: Slots,
                                   out: seq<Value>, cont: int, brk: int, fuel: nat) returns (n: nat)
    requires below != [] && StoresAt(c, p, v, e) && v < |vars| && ExprFits(e, |vars|)
    ensures Does(c, below, Going(p, below + vars, out), p + ExprSize(e) + 2, cont, brk,
                 Store(v, Eval(e, vars), vars, out), fuel, n)
  {
    hide ExprAt, Eval, ExprSize, ExprFits, Holds, Run;
    var s := Going(p, below + vars, out);
    InFrame(below, vars);
    n := ExprRuns(c, |below|, p, e, below + vars, vars, out);
    if Eval(e, vars).Some? {
      StoreRuns(c, below, s, n, p + ExprSize(e), v, Eval(e, vars).value, vars, out);
      n := n + 2;
    }
  }

  /** The instruction after an expression takes its value from the stack. */
  lemma TakeStep(c: Chunk, below: seq<Value>, s: State, k: nat, p: nat, op: Opcode, operand: int, x: Value, vars: Slots,
                 out: seq<Value>)
    requires below != [] && Run(c, |below|, s, k) == Going(p, below + vars + [x], out) && IsAt(c, p, op, operand)
    ensures op.Pop? ==> Run(c, |below|, s, k + 1) == Going(p + 1, below + vars, out)
    ensures op.Print? ==> Run(c, |below|, s, k + 1) == Going(p + 1, below + vars, out + [x])
    ensures op.ReturnValue? ==> Run(c, |below|, s, k + 1) == State.Returned(below[..|below| - 1] + [x], out)
    ensures op.JumpIfFalse? ==>
      Run(c, |below|, s, k + 1) == Going(if x.Truthy() then p + 1 else operand, below + vars, out)
  {
    var t := below + vars + [x];
    assert t[..|t| - 1] == below + vars && t[|t| - 1] == x;
    assert (below + vars)[..|below| - 1] == below[..|below| - 1];
  }

  lemma JumpStep(c: Chunk, below: seq<Value>, s: State, k: nat, p: nat, t: int, stack: seq<Value>, out: seq<Value>)
    requires below != [] && Run(c, |below|, s, k) == Going(p, stack, out) && IsAt(c, p, Jump, t)
    ensures Run(c, |below|, s, k + 1) == Going(t, stack, out)
  {
  }

  /** Compiled code does what the statement means, for any nesting of if, while, break, continue and return. */
  lemma {:induction false} StmtRuns(c: Chunk, below: seq<Value>, p: nat, s: Source.Stmt, vars: Slots, out: seq<Value>,
                                    cont: int, brk: int, fuel: nat) returns (n: nat)
    requires below != [] && StmtAt(c, p, s, cont, brk) && Fits(s, |vars|)
    ensures Does(c, below, Going(p, below + vars, out), p + StmtSize(s), cont, brk, Exec(s, vars, out, fuel), fuel, n)
    decreases fuel, s, 1
  {
    hide ExprAt, Eval, ExprSize, ExprFits, Run, StoresAt;
    match s
    case Let(v, e) => n := LetRuns(c, below, p, v, e, vars, out, cont, brk, fuel);
    case Assign(v, e) => n := LetRuns(c, below, p, v, e, vars, out, cont, brk, fuel);
    case Print(e) => n := TakeRuns(c, below, p, e, Opcode.Print, vars, out);
    case ExprStmt(e) => n := TakeRuns(c, below, p, e, Pop, vars, out);
    case If(x, t, els) => n := IfRuns(c, below, p, x, t, els, vars, out, cont, brk, fuel);
    case While(x, b) => n := WhileRuns(c, below, p, x, b, vars, out, cont, brk, fuel);
    case Block(ss) => n := AllRuns(c, below, p, ss, vars, out, cont, brk, fuel);
    case Break => n := GoStep(c, below, p, brk, vars, out);
    case Continue => n := GoStep(c, below, p, cont, vars, out);
    case Return(e) => n := TakeRuns(c, below, p, e, ReturnValue, vars, out);
  }

  lemma GoStep(c: Chunk, below: seq<Value>, p: nat, t: int, vars: Slots, out: seq<Value>) returns (n: nat)
    requires below != [] && IsAt(c, p, Jump, t)
    ensures Run(c, |below|, Going(p, below + vars, out), n) == Going(t, below + vars, out)
  {
    n := 1;
    JumpStep(c, below, Going(p, below + vars, out), 0, p, t, below + vars, out);
  }

  /** An expression and the instruction that takes its value. */
  lemma TakeRuns(c: Chunk, below: seq<Value>, p: nat, e: Source.Expr, op: Opcode, vars: Slots, out: seq<Value>)
    returns (n: nat)
    requires below != [] && ExprAt(c, p, e) && IsAt(c, p + ExprSize(e), op, -1) && ExprFits(e, |vars|)
    requires op.Pop? || op.Print? || op.ReturnValue?
    ensures Run(c, |below|, Going(p, below + vars, out), n)
         == match Eval(e, vars)
            case None => Failed(out)
            case Some(x) =>
              if op.Pop? then Going(p + ExprSize(e) + 1, below + vars, out)
              else if op.Print? then Going(p + ExprSize(e) + 1, below + vars, out + [x])
              else State.Returned(below[..|below| - 1] + [x], out)
  {
    hide ExprAt, Eval, ExprSize, ExprFits, Run;
    InFrame(below, vars);
    n := ExprRuns(c, |below|, p, e, below + vars, vars, out);
    if Eval(e, vars).Some? {
      TakeStep(c, below, Going(p, below + vars, out), n, p + ExprSize(e), op, -1, Eval(e, vars).value, vars, out);
      n := n + 1;
    }
  }

  /** A condition, and the jump that takes its value. */
  lemma TestRuns(c: Chunk, below: seq<Value>, p: nat, x: Source.Expr, t: int, vars: Slots, out: seq<Value>)
    returns (n: nat)
    requires below != [] && ExprAt(c, p, x) && IsAt(c, p + ExprSize(x), JumpIfFalse, t) && ExprFits(x, |vars|)
    ensures n > 0
    ensures Run(c, |below|, Going(p, below + vars, out), n)
         == match Eval(x, vars)
            case None => Failed(out)
            case Some(v) => Going(if v.Truthy() then p + ExprSize(x) + 1 else t, below + vars, out)
  {
    hide ExprAt, Eval, ExprSize, ExprFits, Run;
    InFrame(below, vars);
    var s := Going(p, below + vars, out);
    n := ExprRuns(c, |below|, p, x, below + vars, vars, out);
    if Eval(x, vars).Some? {
      TakeStep(c, below, s, n, p + ExprSize(x), JumpIfFalse, t, Eval(x, vars).value, vars, out);
      n := n + 1;
    } else {
      FailsSome(c, |below|, s, n);
      n := n + 1;
    }
  }

  lemma FailsSome(c: Chunk, base: nat, s: State, n: nat)
    requires Run(c, base, s, n).Failed?
    ensures Run(c, base, s, n + 1) == Run(c, base, s, n)
  {
  }

  lemma {:induction false} IfRuns(c: Chunk, below: seq<Value>, p: nat, x: Source.Expr, t: Source.Stmt,
                                  els: Option<Source.Stmt>, vars: Slots, out: seq<Value>, cont: int, brk: int,
                                  fuel: nat) returns (n: nat)
    requires below != [] && StmtAt(c, p, Source.If(x, t, els), cont, brk) && Fits(Source.If(x, t, els), |vars|)
    ensures Does(c, below, Going(p, below + vars, out), p + StmtSize(Source.If(x, t, els)), cont, brk,
                 Exec(Source.If(x, t, els), vars, out, fuel), fuel, n)
    decreases fuel, Source.If(x, t, els), 0
  {
    hide ExprAt, Eval, ExprSize, ExprFits, Run, IsAt, AllSize, AllAt;
    var s := Going(p, below + vars, out);
    var q := p + ExprSize(x);
    var m := q + 1 + StmtSize(t);
    var end := p + StmtSize(Source.If(x, t, els));
    var k := TestRuns(c, below, p, x, m + 1, vars, out);
    n := k;
    if Eval(x, vars).Some? {
      if Eval(x, vars).value.Truthy() {
        var j := StmtRuns(c, below, q + 1, t, vars, out, cont, brk, fuel);
        var r := Exec(t, vars, out, fuel);
        DoesLater(c, below, s, k, Going(q + 1, below + vars, out), m, cont, brk, r, fuel, j, fuel);
        n := k + j;
        if r.Next? {
          JumpStep(c, below, s, n, m, end, below + r.vars, r.out);
          n := n + 1;
        }
      } else if els.Some? {
        var j := StmtRuns(c, below, m + 1, els.value, vars, out, cont, brk, fuel);
        DoesLater(c, below, s, k, Going(m + 1, below + vars, out), end, cont, brk,
                  Exec(els.value, vars, out, fuel), fuel, j, fuel);
        n := k + j;
      }
    }
  }

  lemma {:induction false} WhileRuns(c: Chunk, below: seq<Value>, p: nat, x: Source.Expr, b: Source.Stmt, vars: Slots,
                                     out: seq<Value>, cont: int, brk: int, fuel: nat) returns (n: nat)
    requires below != [] && StmtAt(c, p, Source.While(x, b), cont, brk) && Fits(Source.While(x, b), |vars|)
    ensures Does(c, below, Going(p, below + vars, out), p + StmtSize(Source.While(x, b)), cont, brk,
                 Exec(Source.While(x, b), vars, out, fuel), fuel, n)
    decreases fuel, Source.While(x, b), 0
  {
    hide ExprAt, Eval, ExprSize, ExprFits, Run;
    n := 0;
    var s := Going(p, below + vars, out);
    var end := p + StmtSize(Source.While(x, b));
    if fuel > 0 {
      var k := TestRuns(c, below, p, x, end, vars, out);
      n := k;
      if Eval(x, vars).Some? && Eval(x, vars).value.Truthy() {
        var j := BodyRuns(c, below, p, x, b, vars, out, cont, brk, fuel);
        DoesLater(c, below, s, k, Going(p + ExprSize(x) + 1, below + vars, out), end, cont, brk,
                  AfterBody(Exec(b, vars, out, fuel - 1), Source.While(x, b), fuel), fuel - 1, j, fuel);
        n := k + j;
      }
    } else {
      NoSteps(c, below, s);
    }
  }

  lemma NoSteps(c: Chunk, below: seq<Value>, s: State)
    ensures Run(c, |below|, s, 0) == s
  {
  }

  /** The body of a loop, and the iterations after it. */
  lemma {:induction false} BodyRuns(c: Chunk, below: seq<Value>, p: nat, x: Source.Expr, b: Source.Stmt, vars: Slots,
                                    out: seq<Value>, cont: int, brk: int, fuel: nat) returns (n: nat)
    requires below != [] && StmtAt(c, p, Source.While(x, b), cont, brk) && Fits(Source.While(x, b), |vars|) && fuel > 0
    ensures Does(c, below, Going(p + ExprSize(x) + 1, below + vars, out), p + StmtSize(Source.While(x, b)), cont, brk,
                 AfterBody(Exec(b, vars, out, fuel - 1), Source.While(x, b), fuel), fuel - 1, n)
    decreases fuel - 1, Source.While(x, b), 1
  {
    hide ExprAt, Eval, ExprSize, ExprFits, Run;
    var q := p + ExprSize(x) + 1;
    var m := q + StmtSize(b);
    var s := Going(q, below + vars, out);
    var r := Exec(b, vars, out, fuel - 1);
    n := StmtRuns(c, below, q, b, vars, out, p, m + 1, fuel - 1);
    if r.Next? || r.Continued? {
      FrameKept(b, vars, out, fuel - 1);
      if r.Next? {
        JumpStep(c, below, s, n, m, p, below + r.vars, r.out);
        n := n + 1;
      }
      var j := WhileRuns(c, below, p, x, b, r.vars, r.out, cont, brk, fuel - 1);
      DoesLater(c, below, s, n, Going(p, below + r.vars, r.out), m + 1, cont, brk,
                Exec(Source.While(x, b), r.vars, r.out, fuel - 1), fuel - 1, j, fuel - 1);
      n := n + j;
    }
  }

  lemma {:induction false} AllRuns(c: Chunk, below: seq<Value>, p: nat, ss: seq<Source.Stmt>, vars: Slots,
                                   out: seq<Value>, cont: int, brk: int, fuel: nat) returns (n: nat)
    requires below != [] && AllAt(c, p, ss, cont, brk) && forall i :: 0 <= i < |ss| ==> Fits(ss[i], |vars|)
    ensures Does(c, below, Going(p, below + vars, out), p + AllSize(ss), cont, brk, ExecAll(ss, vars, out, fuel),
                 fuel, n)
    decreases fuel, ss, 0
  {
    hide StmtAt, StmtSize, Run, Exec;
    n := 0;
    var s := Going(p, below + vars, out);
    NoSteps(c, below, s);
    if ss != [] {
      n := StmtRuns(c, below, p, ss[0], vars, out, cont, brk, fuel);
      var r := Exec(ss[0], vars, out, fuel);
      if r.Next? {
        FrameKept(ss[0], vars, out, fuel);
        var j := AllRuns(c, below, p + StmtSize(ss[0]), ss[1..], r.vars, r.out, cont, brk, fuel);
        DoesLater(c, below, s, n, Going(p + StmtSize(ss[0]), below + r.vars, r.out), p + AllSize(ss), cont, brk,
                  ExecAll(ss[1..], r.vars, r.out, fuel), fuel, j, fuel);
        n := n + j;
      }
    }
  }
}
