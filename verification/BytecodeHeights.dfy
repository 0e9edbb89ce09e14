/** Each position of compiled code has one height of the stack, so the machine never runs into anything but
    the error of an operator: no jump leaves the code, no slot is missing, nothing is popped that is not there. */
module BytecodeHeights {
  import opened Wrappers
  import opened VirtualMachine
  import opened BytecodeLayout
  import opened BytecodeCompiler
  import opened VmSource
  import Source

  /** How many values an instruction leaves on the stack. */
  function Makes(op: Opcode): nat {
    match op
    case PushConst => 1
    case LoadLocal => 1
    case StoreLocal => 1
    case Binary(_) => 1
    case And => 1
    case Or => 1
    case Unary(_) => 1
    case _ => 0
  }

  /** Position t of the code exists and the stack is k high there. */
  predicate HighAt(h: seq<nat>, t: int, k: int) {
    0 <= t < |h| && h[t] == k
  }

  /** The instruction at i finds what it needs, and wherever it leads the stack is as high as it should be. */
  predicate Balanced(c: Chunk, h: seq<nat>, frame: nat, i: nat)
    requires i < |c.code| && i < |h|
  {
    var op := c.code[i].opcode;
    var k := c.code[i].operand;
    && Needs(op) <= h[i]
    && (match op
        case Jump => HighAt(h, k, h[i])
        case JumpIfFalse => HighAt(h, k, h[i] - 1) && HighAt(h, i + 1, h[i] - 1)
        case ReturnValue => true
        case ReturnVoid => true
        case PushConst => 0 <= k < |c.constants| && HighAt(h, i + 1, h[i] + 1)
        case LoadLocal => 0 <= k < frame && HighAt(h, i + 1, h[i] + 1)
        case StoreLocal => 0 <= k < frame && HighAt(h, i + 1, h[i])
        case _ => HighAt(h, i + 1, h[i] - Needs(op) + Makes(op)))
  }

  ghost predicate AllBalanced(c: Chunk, h: seq<nat>, frame: nat, p: nat, q: nat) {
    q <= |c.code| && q <= |h| && forall i: nat :: p <= i < q ==> Balanced(c, h, frame, i)
  }

  /** The heights in front of each instruction of an expression that starts with d values on the stack. */
  function ExprHeights(e: Source.Expr, d: nat): (h: seq<nat>)
    ensures |h| == ExprSize(e)
    decreases ExprSize(e)
  {
    match e
    case Literal(_) => [d]
    case Variable(_) => [d]
    case Binary(_, l, r) => BothHeights(l, r, d)
    case Unary(_, a) => ExprHeights(a, d) + [d + 1]
    case LogicalAnd(l, r) => BothHeights(l, r, d)
    case LogicalOr(l, r) => BothHeights(l, r, d)
    case NullCoalesce(l, r) => BothHeights(l, r, d)
  }

  function BothHeights(l: Source.Expr, r: Source.Expr, d: nat): (h: seq<nat>)
    ensures |h| == ExprSize(l) + ExprSize(r) + 1
    decreases ExprSize(l) + ExprSize(r)
  {
    ExprHeights(l, d) + ExprHeights(r, d + 1) + [d + 2]
  }

  /** Statements start and end with nothing on the stack. */
  function StmtHeights(s: Source.Stmt): (h: seq<nat>)
    ensures |h| == StmtSize(s)
    decreases s, 0
  {
    match s
    case Let(_, e) => ExprHeights(e, 0) + [1, 1]
    case Assign(_, e) => ExprHeights(e, 0) + [1, 1]
    case Print(e) => ExprHeights(e, 0) + [1]
    case ExprStmt(e) => ExprHeights(e, 0) + [1]
    case If(x, t, els) =>
      ExprHeights(x, 0) + [1] + StmtHeights(t) + [0] + (match els case None => [] case Some(e) => StmtHeights(e))
    case While(x, b) => ExprHeights(x, 0) + [1] + StmtHeights(b) + [0]
    case Block(ss) => AllHeights(ss)
    case Break => [0]
    case Continue => [0]
    case Return(e) => ExprHeights(e, 0) + [1]
  }

  function AllHeights(ss: seq<Source.Stmt>): (h: seq<nat>)
    ensures |h| == AllSize(ss)
    decreases ss, 1
  {
    if ss == [] then [] else StmtHeights(ss[0]) + AllHeights(ss[1..])
  }

  /** The stretch of h from p on is x. */
  predicate Stretch(h: seq<nat>, p: nat, x: seq<nat>) {
    p + |x| <= |h| && h[p..p + |x|] == x
  }

  lemma StretchParts(h: seq<nat>, p: nat, x: seq<nat>, y: seq<nat>)
    requires Stretch(h, p, x + y)
    ensures Stretch(h, p, x) && Stretch(h, p + |x|, y)
  {
    assert h[p..p + |x|] == (x + y)[..|x|];
    assert h[p + |x|..p + |x| + |y|] == (x + y)[|x|..];
  }

  lemma StretchAt(h: seq<nat>, p: nat, x: seq<nat>, i: nat)
    requires Stretch(h, p, x) && i < |x|
    ensures HighAt(h, p + i, x[i])
  {
    assert h[p..p + |x|][i] == x[i];
  }

  /** The first instruction of an expression starts at the height the expression starts at. */
  lemma {:induction false} ExprStarts(e: Source.Expr, d: nat)
    ensures ExprHeights(e, d)[0] == d
    decreases ExprSize(e)
  {
    match e
    case Binary(_, l, r) => ExprStarts(l, d);
    case Unary(_, a) => ExprStarts(a, d);
    case LogicalAnd(l, r) => ExprStarts(l, d);
    case LogicalOr(l, r) => ExprStarts(l, d);
    case NullCoalesce(l, r) => ExprStarts(l, d);
    case _ =>
  }

  lemma LoadBalanced(c: Chunk, h: seq<nat>, frame: nat, p: nat, e: Source.Expr, d: nat)
    requires (e.Literal? || e.Variable?) && ExprAt(c, p, e) && ExprFits(e, frame) && Stretch(h, p, [d])
    requires HighAt(h, p + 1, d + 1) && |h| <= |c.code|
    ensures AllBalanced(c, h, frame, p, p + 1)
  {
    StretchAt(h, p, [d], 0);
    assert Balanced(c, h, frame, p);
  }

  lemma UnaryBalanced(c: Chunk, h: seq<nat>, frame: nat, p: nat, q: nat, op: Source.UnaryOp, d: nat)
    requires AllBalanced(c, h, frame, p, q) && IsAt(c, q, Opcode.Unary(op), -1) && Stretch(h, q, [d + 1])
    requires HighAt(h, q + 1, d + 1) && |h| <= |c.code|
    ensures AllBalanced(c, h, frame, p, q + 1)
  {
    StretchAt(h, q, [d + 1], 0);
    assert Balanced(c, h, frame, q);
  }

  lemma {:induction false} ExprBalanced(c: Chunk, h: seq<nat>, frame: nat, p: nat, e: Source.Expr, d: nat)
    requires ExprAt(c, p, e) && ExprFits(e, frame) && Stretch(h, p, ExprHeights(e, d)) && |h| <= |c.code|
    requires HighAt(h, p + ExprSize(e), d + 1)
    ensures AllBalanced(c, h, frame, p, p + ExprSize(e))
    decreases ExprSize(e)
  {
    hide BothAt, BothHeights, AllBalanced, Stretch;
    match e
    case Literal(_) => LoadBalanced(c, h, frame, p, e, d);
    case Variable(_) => LoadBalanced(c, h, frame, p, e, d);
    case Binary(op, l, r) => BothBalanced(c, h, frame, p, l, r, Opcode.Binary(op), d);
    case Unary(op, a) =>
      StretchParts(h, p, ExprHeights(a, d), [d + 1]);
      StretchAt(h, p + ExprSize(a), [d + 1], 0);
      ExprBalanced(c, h, frame, p, a, d);
      UnaryBalanced(c, h, frame, p, p + ExprSize(a), op, d);
    case LogicalAnd(l, r) => BothBalanced(c, h, frame, p, l, r, And, d);
    case LogicalOr(l, r) => BothBalanced(c, h, frame, p, l, r, Or, d);
    case NullCoalesce(_, _) =>
  }

  lemma {:induction false} BothBalanced(c: Chunk, h: seq<nat>, frame: nat, p: nat, l: Source.Expr, r: Source.Expr,
                                        op: Opcode, d: nat)
    requires BothAt(c, p, l, r, op) && ExprFits(l, frame) && ExprFits(r, frame) && |h| <= |c.code|
    requires Stretch(h, p, BothHeights(l, r, d)) && HighAt(h, p + ExprSize(l) + ExprSize(r) + 1, d + 1)
    requires op.Binary? || op.And? || op.Or?
    ensures AllBalanced(c, h, frame, p, p + ExprSize(l) + ExprSize(r) + 1)
    decreases ExprSize(l) + ExprSize(r)
  {
    hide ExprAt, ExprFits, ExprSize, Stretch;
    var m := p + ExprSize(l);
    StretchParts(h, p, ExprHeights(l, d) + ExprHeights(r, d + 1), [d + 2]);
    StretchParts(h, p, ExprHeights(l, d), ExprHeights(r, d + 1));
    StretchAt(h, m + ExprSize(r), [d + 2], 0);
    ExprStarts(r, d + 1);
    StretchAt(h, m, ExprHeights(r, d + 1), 0);
    ExprBalanced(c, h, frame, p, l, d);
    ExprBalanced(c, h, frame, m, r, d + 1);
  }

  // ----- statements -----

  /** Where continues and breaks go the stack is empty, if there can be any. */
  predicate TargetsHigh(h: seq<nat>, inLoop: bool, cont: int, brk: int) {
    inLoop ==> HighAt(h, cont, 0) && HighAt(h, brk, 0)
  }

  lemma {:induction false} StmtStarts(s: Source.Stmt, rest: seq<nat>)
    requires rest != [] && rest[0] == 0
    ensures (StmtHeights(s) + rest)[0] == 0
    decreases s, 0
  {
    match s
    case Let(_, e) => ExprStarts(e, 0);
    case Assign(_, e) => ExprStarts(e, 0);
    case Print(e) => ExprStarts(e, 0);
    case ExprStmt(e) => ExprStarts(e, 0);
    case If(x, t, els) => ExprStarts(x, 0);
    case While(x, b) => ExprStarts(x, 0);
    case Block(ss) => AllStarts(ss, rest);
    case Break =>
    case Continue =>
    case Return(e) => ExprStarts(e, 0);
  }

  lemma {:induction false} AllStarts(ss: seq<Source.Stmt>, rest: seq<nat>)
    requires rest != [] && rest[0] == 0
    ensures (AllHeights(ss) + rest)[0] == 0
    decreases ss, 1
  {
    if ss == [] {
      assert AllHeights(ss) + rest == rest;
    } else {
      AllStarts(ss[1..], rest);
      StmtStarts(ss[0], AllHeights(ss[1..]) + rest);
      assert AllHeights(ss) + rest == StmtHeights(ss[0]) + (AllHeights(ss[1..]) + rest);
    }
  }

  /** The position a statement starts at has height 0. */
  lemma StartHigh(h: seq<nat>, p: nat, s: Source.Stmt)
    requires Stretch(h, p, StmtHeights(s)) && HighAt(h, p + StmtSize(s), 0)
    ensures HighAt(h, p, 0)
  {
    StmtStarts(s, [0]);
    if StmtSize(s) > 0 { StretchAt(h, p, StmtHeights(s), 0); }
  }

  lemma {:induction false} ThenBalanced(c: Chunk, h: seq<nat>, frame: nat, p: nat, e: Source.Expr, op: Opcode,
                                        operand: int)
    requires ExprAt(c, p, e) && ExprFits(e, frame) && IsAt(c, p + ExprSize(e), op, operand) && |h| <= |c.code|
    requires Stretch(h, p, ExprHeights(e, 0) + [1])
    requires op.JumpIfFalse? ==> HighAt(h, operand, 0)
    requires !op.ReturnValue? ==> HighAt(h, p + ExprSize(e) + 1, 0)
    requires op.Print? || op.Pop? || op.ReturnValue? || op.JumpIfFalse?
    ensures AllBalanced(c, h, frame, p, p + ExprSize(e) + 1)
  {
    hide ExprAt, ExprFits, ExprHeights, ExprSize;
    StretchParts(h, p, ExprHeights(e, 0), [1]);
    StretchAt(h, p + ExprSize(e), [1], 0);
    ExprBalanced(c, h, frame, p, e, 0);
    assert Balanced(c, h, frame, p + ExprSize(e));
  }

  lemma {:induction false} StoreBalanced(c: Chunk, h: seq<nat>, frame: nat, p: nat, v: nat, e: Source.Expr)
    requires StoresAt(c, p, v, e) && v < frame && ExprFits(e, frame) && |h| <= |c.code|
    requires Stretch(h, p, ExprHeights(e, 0) + [1, 1]) && HighAt(h, p + ExprSize(e) + 2, 0)
    ensures AllBalanced(c, h, frame, p, p + ExprSize(e) + 2)
  {
    hide ExprAt, ExprFits, ExprHeights, ExprSize;
    var q := p + ExprSize(e);
    StretchParts(h, p, ExprHeights(e, 0), [1, 1]);
    StretchAt(h, q, [1, 1], 0);
    StretchAt(h, q, [1, 1], 1);
    ExprBalanced(c, h, frame, p, e, 0);
    assert Balanced(c, h, frame, q) && Balanced(c, h, frame, q + 1);
  }

  lemma {:induction false} StmtBalanced(c: Chunk, h: seq<nat>, frame: nat, p: nat, s: Source.Stmt, inLoop: bool,
                                        cont: int, brk: int)
    requires StmtAt(c, p, s, cont, brk) && Fits(s, frame) && Compiles(s, inLoop) && |h| <= |c.code|
    requires Stretch(h, p, StmtHeights(s)) && HighAt(h, p + StmtSize(s), 0) && TargetsHigh(h, inLoop, cont, brk)
    ensures AllBalanced(c, h, frame, p, p + StmtSize(s))
    decreases s, 1
  {
    hide ExprAt, ExprFits, ExprHeights, ExprSize, StoresAt, Stretch;
    match s
    case Let(v, e) => StoreBalanced(c, h, frame, p, v, e);
    case Assign(v, e) => StoreBalanced(c, h, frame, p, v, e);
    case Print(e) => ThenBalanced(c, h, frame, p, e, Opcode.Print, -1);
    case ExprStmt(e) => ThenBalanced(c, h, frame, p, e, Pop, -1);
    case If(x, t, els) => IfBalanced(c, h, frame, p, x, t, els, inLoop, cont, brk);
    case While(x, b) => WhileBalanced(c, h, frame, p, x, b, inLoop, cont, brk);
    case Block(ss) => BlockBalanced(c, h, frame, p, ss, inLoop, cont, brk);
    case Break => GoBalanced(c, h, frame, p, brk);
    case Continue => GoBalanced(c, h, frame, p, cont);
    case Return(e) => ThenBalanced(c, h, frame, p, e, ReturnValue, -1);
  }

  lemma GoBalanced(c: Chunk, h: seq<nat>, frame: nat, p: nat, t: int)
    requires IsAt(c, p, Jump, t) && Stretch(h, p, [0]) && HighAt(h, t, 0) && |h| <= |c.code|
    ensures AllBalanced(c, h, frame, p, p + 1)
  {
    StretchAt(h, p, [0], 0);
    assert Balanced(c, h, frame, p);
  }

  lemma BalancedJoin(c: Chunk, h: seq<nat>, frame: nat, p: nat, m: nat, q: nat)
    requires AllBalanced(c, h, frame, p, m) && AllBalanced(c, h, frame, m, q)
    ensures AllBalanced(c, h, frame, p, q)
  {
  }

  lemma {:induction false} IfBalanced(c: Chunk, h: seq<nat>, frame: nat, p: nat, x: Source.Expr, t: Source.Stmt,
                                      els: Option<Source.Stmt>, inLoop: bool, cont: int, brk: int)
    requires var s := Source.If(x, t, els);
             StmtAt(c, p, s, cont, brk) && Fits(s, frame) && Compiles(s, inLoop) && |h| <= |c.code|
             && Stretch(h, p, StmtHeights(s)) && HighAt(h, p + StmtSize(s), 0) && TargetsHigh(h, inLoop, cont, brk)
    ensures AllBalanced(c, h, frame, p, p + StmtSize(Source.If(x, t, els)))
    decreases Source.If(x, t, els), 0
  {
    hide ExprAt, ExprFits, ExprHeights, ExprSize, Stretch, AllBalanced, StmtHeights, ExprCompiles, IsAt, Balanced;
    var q := p + ExprSize(x) + 1;
    var m := q + StmtSize(t);
    var end := p + StmtSize(Source.If(x, t, els));
    IfStretches(h, p, x, t, els, q, m);
    StretchAt(h, m, [0], 0);
    StartHigh(h, q, t);
    if els.Some? {
      StartHigh(h, m + 1, els.value);
      StmtBalanced(c, h, frame, m + 1, els.value, inLoop, cont, brk);
    } else {
      NothingBalanced(c, h, frame, end);
    }
    ThenBalanced(c, h, frame, p, x, JumpIfFalse, m + 1);
    StmtBalanced(c, h, frame, q, t, inLoop, cont, brk);
    GoBalanced(c, h, frame, m, end);
    BalancedJoin(c, h, frame, p, q, m);
    BalancedJoin(c, h, frame, p, m, m + 1);
    BalancedJoin(c, h, frame, p, m + 1, end);
  }

  function ElseHeights(els: Option<Source.Stmt>): (h: seq<nat>)
    ensures els.Some? ==> h == StmtHeights(els.value)
  {
    match els case None => [] case Some(e) => StmtHeights(e)
  }

  lemma IfHeights(x: Source.Expr, t: Source.Stmt, els: Option<Source.Stmt>)
    ensures StmtHeights(Source.If(x, t, els)) == ExprHeights(x, 0) + [1] + StmtHeights(t) + [0] + ElseHeights(els)
  {
  }

  lemma IfStretches(h: seq<nat>, p: nat, x: Source.Expr, t: Source.Stmt, els: Option<Source.Stmt>, q: nat, m: nat)
    requires Stretch(h, p, StmtHeights(Source.If(x, t, els))) && q == p + ExprSize(x) + 1 && m == q + StmtSize(t)
    ensures Stretch(h, p, ExprHeights(x, 0) + [1]) && Stretch(h, q, StmtHeights(t)) && Stretch(h, m, [0])
    ensures m + 1 <= |h| && (els.Some? ==> Stretch(h, m + 1, StmtHeights(els.value)))
  {
    hide ExprHeights, ExprSize, Stretch, StmtSize, StmtHeights, ElseHeights;
    IfHeights(x, t, els);
    var head := ExprHeights(x, 0) + [1];
    FourParts(h, p, head, StmtHeights(t), [0], ElseHeights(els));
    assert p + |head| == q && q + |StmtHeights(t)| == m;
    StretchAt(h, m, [0], 0);
  }

  lemma FourParts(h: seq<nat>, p: nat, a: seq<nat>, b: seq<nat>, d: seq<nat>, e: seq<nat>)
    requires Stretch(h, p, a + b + d + e)
    ensures Stretch(h, p, a) && Stretch(h, p + |a|, b) && Stretch(h, p + |a| + |b|, d)
    ensures Stretch(h, p + |a| + |b| + |d|, e)
  {
    hide Stretch;
    StretchParts(h, p, a + b + d, e);
    StretchParts(h, p, a + b, d);
    StretchParts(h, p, a, b);
  }

  lemma NothingBalanced(c: Chunk, h: seq<nat>, frame: nat, p: nat)
    requires p <= |h| <= |c.code|
    ensures AllBalanced(c, h, frame, p, p)
  {
  }

  lemma {:induction false} WhileBalanced(c: Chunk, h: seq<nat>, frame: nat, p: nat, x: Source.Expr, b: Source.Stmt,
                                         inLoop: bool, cont: int, brk: int)
    requires var s := Source.While(x, b);
             StmtAt(c, p, s, cont, brk) && Fits(s, frame) && Compiles(s, inLoop) && |h| <= |c.code|
             && Stretch(h, p, StmtHeights(s)) && HighAt(h, p + StmtSize(s), 0)
    ensures AllBalanced(c, h, frame, p, p + StmtSize(Source.While(x, b)))
    decreases Source.While(x, b), 0
  {
    hide ExprAt, ExprFits, ExprSize, ExprHeights, Stretch, AllBalanced, StmtHeights;
    var q := p + ExprSize(x) + 1;
    var m := q + StmtSize(b);
    StartHigh(h, p, Source.While(x, b));
    WhileStretches(h, p, x, b, q, m);
    StretchAt(h, m, [0], 0);
    StartHigh(h, q, b);
    ThenBalanced(c, h, frame, p, x, JumpIfFalse, m + 1);
    StmtBalanced(c, h, frame, q, b, true, p, m + 1);
    GoBalanced(c, h, frame, m, p);
    BalancedJoin(c, h, frame, p, q, m);
    BalancedJoin(c, h, frame, p, m, m + 1);
  }

  lemma WhileHeights(x: Source.Expr, b: Source.Stmt)
    ensures StmtHeights(Source.While(x, b)) == ExprHeights(x, 0) + [1] + StmtHeights(b) + [0] + []
  {
  }

  lemma WhileStretches(h: seq<nat>, p: nat, x: Source.Expr, b: Source.Stmt, q: nat, m: nat)
    requires Stretch(h, p, StmtHeights(Source.While(x, b))) && q == p + ExprSize(x) + 1 && m == q + StmtSize(b)
    ensures Stretch(h, p, ExprHeights(x, 0) + [1]) && Stretch(h, q, StmtHeights(b)) && Stretch(h, m, [0])
  {
    hide ExprHeights, ExprSize, Stretch, StmtSize, StmtHeights;
    WhileHeights(x, b);
    var head := ExprHeights(x, 0) + [1];
    FourParts(h, p, head, StmtHeights(b), [0], []);
    assert p + |head| == q && q + |StmtHeights(b)| == m;
  }

  lemma {:induction false} BlockBalanced(c: Chunk, h: seq<nat>, frame: nat, p: nat, ss: seq<Source.Stmt>,
                                         inLoop: bool, cont: int, brk: int)
    requires AllAt(c, p, ss, cont, brk) && |h| <= |c.code|
    requires forall i :: 0 <= i < |ss| ==> Fits(ss[i], frame) && Compiles(ss[i], inLoop)
    requires Stretch(h, p, AllHeights(ss)) && HighAt(h, p + AllSize(ss), 0) && TargetsHigh(h, inLoop, cont, brk)
    ensures AllBalanced(c, h, frame, p, p + AllSize(ss))
    decreases ss, 2
  {
    hide StmtAt, StmtHeights, Stretch, AllBalanced, Fits, Compiles;
    if ss == [] {
      NothingBalanced(c, h, frame, p);
    } else {
      var m := p + StmtSize(ss[0]);
      StretchParts(h, p, StmtHeights(ss[0]), AllHeights(ss[1..]));
      RestStarts(h, m, ss[1..]);
      StmtBalanced(c, h, frame, p, ss[0], inLoop, cont, brk);
      BlockBalanced(c, h, frame, m, ss[1..], inLoop, cont, brk);
      BalancedJoin(c, h, frame, p, m, p + AllSize(ss));
    }
  }

  lemma RestStarts(h: seq<nat>, p: nat, ss: seq<Source.Stmt>)
    requires Stretch(h, p, AllHeights(ss)) && HighAt(h, p + AllSize(ss), 0)
    ensures HighAt(h, p, 0)
  {
    AllStarts(ss, [0]);
    if AllSize(ss) > 0 { StretchAt(h, p, AllHeights(ss), 0); }
  }

  // ----- every run -----

  /** In a frame of the given size the stack is as high as its position says. */
  ghost predicate InStep(c: Chunk, h: seq<nat>, base: nat, frame: nat, s: State) {
    s.Going? ==> 0 <= s.ip < |c.code| && s.ip < |h| && |s.stack| == base + frame + h[s.ip]
  }

  /** The machine only fails when an operator does. */
  ghost predicate OperatorFails(c: Chunk, s: State) {
    && s.Going? && 0 <= s.ip < |c.code| && 2 <= |s.stack| + 1
    && var n := |s.stack|;
       match c.code[s.ip].opcode
       case Binary(op) => n >= 2 && ApplyBinary(op, s.stack[n - 2], s.stack[n - 1]) == None
       case Unary(op) => n >= 1 && ApplyUnary(op, s.stack[n - 1]) == None
       case _ => false
  }

  lemma StepKeeps(c: Chunk, h: seq<nat>, base: nat, frame: nat, s: State)
    requires base > 0 && |h| == |c.code| && AllBalanced(c, h, frame, 0, |c.code|) && InStep(c, h, base, frame, s)
    ensures InStep(c, h, base, frame, Step(c, base, s))
    ensures s.Going? && Step(c, base, s).Failed? ==> OperatorFails(c, s)
  {
    if s.Going? { assert Balanced(c, h, frame, s.ip); }
  }

  lemma {:induction false} RunKeeps(c: Chunk, h: seq<nat>, base: nat, frame: nat, s: State, n: nat)
    requires base > 0 && |h| == |c.code| && AllBalanced(c, h, frame, 0, |c.code|) && InStep(c, h, base, frame, s)
    ensures InStep(c, h, base, frame, Run(c, base, s, n))
  {
    if n > 0 {
      RunKeeps(c, h, base, frame, s, n - 1);
      StepKeeps(c, h, base, frame, Run(c, base, s, n - 1));
    }
  }
}
