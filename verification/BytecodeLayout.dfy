/** What it means that a stretch of bytecode is the code of an expression or a statement. */
module BytecodeLayout {
  import opened Wrappers
  import opened VirtualMachine
  import Source

  function ExprSize(e: Source.Expr): (n: nat)
    ensures n > 0
  {
    match e
    case Literal(_) => 1
    case Variable(_) => 1
    case Binary(_, l, r) => ExprSize(l) + ExprSize(r) + 1
    case Unary(_, a) => ExprSize(a) + 1
    case LogicalAnd(l, r) => ExprSize(l) + ExprSize(r) + 1
    case LogicalOr(l, r) => ExprSize(l) + ExprSize(r) + 1
    case NullCoalesce(l, r) => ExprSize(l) + ExprSize(r) + 1
  }

  function StmtSize(s: Source.Stmt): nat {
    match s
    case Let(_, e) => ExprSize(e) + 2
    case Assign(_, e) => ExprSize(e) + 2
    case Print(e) => ExprSize(e) + 1
    case ExprStmt(e) => ExprSize(e) + 1
    case If(c, t, els) => ExprSize(c) + StmtSize(t) + 2 + (match els case None => 0 case Some(e) => StmtSize(e))
    case While(c, b) => ExprSize(c) + StmtSize(b) + 2
    case Block(ss) => AllSize(ss)
    case Break => 1
    case Continue => 1
    case Return(e) => ExprSize(e) + 1
  }

  function AllSize(ss: seq<Source.Stmt>): nat {
    if ss == [] then 0 else StmtSize(ss[0]) + AllSize(ss[1..])
  }

  predicate IsAt(c: Chunk, p: nat, op: Opcode, operand: int) {
    p < |c.code| && c.code[p] == Instruction(op, operand)
  }

  predicate LoadsConstant(c: Chunk, p: nat, k: Source.Constant) {
    && p < |c.code| && c.code[p].opcode == PushConst
    && 0 <= c.code[p].operand < |c.constants| && c.constants[c.code[p].operand] == k
  }

  /** The code at p evaluates e. There is none for `??`. */
  predicate ExprAt(c: Chunk, p: nat, e: Source.Expr)
    decreases ExprSize(e)
  {
    match e
    case Literal(k) => LoadsConstant(c, p, k)
    case Variable(v) => IsAt(c, p, LoadLocal, v)
    case Binary(op, l, r) => BothAt(c, p, l, r, Opcode.Binary(op))
    case Unary(op, a) => ExprAt(c, p, a) && IsAt(c, p + ExprSize(a), Opcode.Unary(op), -1)
    case LogicalAnd(l, r) => BothAt(c, p, l, r, And)
    case LogicalOr(l, r) => BothAt(c, p, l, r, Or)
    case NullCoalesce(_, _) => false
  }

  /** Both operands are evaluated, always, and then the instruction combines them. */
  predicate BothAt(c: Chunk, p: nat, l: Source.Expr, r: Source.Expr, op: Opcode)
    decreases ExprSize(l) + ExprSize(r)
  {
    && ExprAt(c, p, l) && ExprAt(c, p + ExprSize(l), r)
    && IsAt(c, p + ExprSize(l) + ExprSize(r), op, -1)
  }

  /** The code at p executes s; continue and break jump to `cont` and `brk`. */
  predicate StmtAt(c: Chunk, p: nat, s: Source.Stmt, cont: int, brk: int)
    decreases s, 0
  {
    match s
    case Let(v, e) => StoresAt(c, p, v, e)
    case Assign(v, e) => StoresAt(c, p, v, e)
    case Print(e) => ExprAt(c, p, e) && IsAt(c, p + ExprSize(e), Opcode.Print, -1)
    case ExprStmt(e) => ExprAt(c, p, e) && IsAt(c, p + ExprSize(e), Pop, -1)
    case If(x, t, els) =>
      var q := p + ExprSize(x);
      var m := q + 1 + StmtSize(t);
      && ExprAt(c, p, x) && IsAt(c, q, JumpIfFalse, m + 1)
      && StmtAt(c, q + 1, t, cont, brk) && IsAt(c, m, Jump, p + StmtSize(s))
      && (match els case None => true case Some(e) => StmtAt(c, m + 1, e, cont, brk))
    case While(x, b) =>
      var q := p + ExprSize(x);
      var m := q + 1 + StmtSize(b);
      && ExprAt(c, p, x) && IsAt(c, q, JumpIfFalse, m + 1)
      && StmtAt(c, q + 1, b, p, m + 1) && IsAt(c, m, Jump, p)
    case Block(ss) => AllAt(c, p, ss, cont, brk)
    case Break => IsAt(c, p, Jump, brk)
    case Continue => IsAt(c, p, Jump, cont)
    case Return(e) => ExprAt(c, p, e) && IsAt(c, p + ExprSize(e), ReturnValue, -1)
  }

  /** A store leaves the value on the stack, and the statement pops it. */
  predicate StoresAt(c: Chunk, p: nat, v: Source.Var, e: Source.Expr) {
    && ExprAt(c, p, e) && IsAt(c, p + ExprSize(e), StoreLocal, v) && IsAt(c, p + ExprSize(e) + 1, Pop, -1)
  }

  predicate AllAt(c: Chunk, p: nat, ss: seq<Source.Stmt>, cont: int, brk: int)
    decreases ss, 1
  {
    ss == [] || (StmtAt(c, p, ss[0], cont, brk) && AllAt(c, p + StmtSize(ss[0]), ss[1..], cont, brk))
  }

  // ----- breaks, which are patched when their loop ends -----

  /** Where the breaks of the loop around s are, in the order they are emitted. */
  function BreaksOf(s: Source.Stmt, p: nat): (r: seq<nat>)
    decreases s, 0
  {
    match s
    case If(x, t, els) =>
      var q := p + ExprSize(x) + 1;
      BreaksOf(t, q) + (match els case None => [] case Some(e) => BreaksOf(e, q + StmtSize(t) + 1))
    case Block(ss) => AllBreaks(ss, p)
    case Break => [p]
    case _ => []
  }

  function AllBreaks(ss: seq<Source.Stmt>, p: nat): (r: seq<nat>)
    decreases ss, 1
  {
    if ss == [] then [] else BreaksOf(ss[0], p) + AllBreaks(ss[1..], p + StmtSize(ss[0]))
  }

  lemma {:induction false} BreaksInside(s: Source.Stmt, p: nat)
    ensures forall i :: i in BreaksOf(s, p) ==> p <= i < p + StmtSize(s)
    decreases s, 0
  {
    match s
    case If(x, t, els) =>
      BreaksInside(t, p + ExprSize(x) + 1);
      if els.Some? { BreaksInside(els.value, p + ExprSize(x) + 1 + StmtSize(t) + 1); }
    case Block(ss) => AllBreaksInside(ss, p);
    case _ =>
  }

  lemma {:induction false} AllBreaksInside(ss: seq<Source.Stmt>, p: nat)
    ensures forall i :: i in AllBreaks(ss, p) ==> p <= i < p + AllSize(ss)
    decreases ss, 1
  {
    if ss != [] {
      BreaksInside(ss[0], p);
      AllBreaksInside(ss[1..], p + StmtSize(ss[0]));
    }
  }

  /** Between p and q, c2 is c with the jumps at ps going to t. */
  ghost predicate Patched(c: Chunk, c2: Chunk, p: nat, q: nat, ps: seq<nat>, t: int) {
    && q <= |c.code| && q <= |c2.code| && c.constants <= c2.constants
    && forall i :: p <= i < q ==> c2.code[i] == if i in ps then Instruction(Jump, t) else c.code[i]
  }

  /** On a part of the stretch only the positions inside it matter. */
  lemma PatchedPart(c: Chunk, c2: Chunk, p: nat, q: nat, ps: seq<nat>, t: int, p1: nat, q1: nat, ps1: seq<nat>)
    requires Patched(c, c2, p, q, ps, t) && p <= p1 && q1 <= q
    requires forall i :: p1 <= i < q1 ==> (i in ps <==> i in ps1)
    ensures Patched(c, c2, p1, q1, ps1, t)
  {
  }

  /** Between p and q the code is the same, and constants are only added. */
  ghost predicate Same(c: Chunk, c2: Chunk, p: nat, q: nat) {
    Patched(c, c2, p, q, [], 0)
  }

  lemma SamePart(c: Chunk, c2: Chunk, p: nat, q: nat, ps: seq<nat>, t: int, p1: nat, q1: nat)
    requires Patched(c, c2, p, q, ps, t) && p <= p1 && q1 <= q
    requires forall i :: i in ps ==> i < p1 || i >= q1
    ensures Same(c, c2, p1, q1)
  {
  }

  lemma SameAt(c: Chunk, c2: Chunk, p: nat, q: nat, i: nat, op: Opcode, operand: int)
    requires Same(c, c2, p, q) && p <= i < q && IsAt(c, i, op, operand)
    ensures IsAt(c2, i, op, operand)
  {
  }

  lemma ConstantStays(c: Chunk, c2: Chunk, p: nat, k: Source.Constant)
    requires Same(c, c2, p, p + 1) && LoadsConstant(c, p, k)
    ensures LoadsConstant(c2, p, k)
  {
    assert c2.code[p] == c.code[p];
  }

  lemma {:induction false} ExprStays(c: Chunk, c2: Chunk, p: nat, e: Source.Expr)
    requires Same(c, c2, p, p + ExprSize(e)) && ExprAt(c, p, e)
    ensures ExprAt(c2, p, e)
    decreases ExprSize(e)
  {
    hide Patched, Same, BothAt;
    match e
    case Literal(k) => ConstantStays(c, c2, p, k);
    case Variable(v) => SameAt(c, c2, p, p + 1, p, LoadLocal, v);
    case Binary(op, l, r) => BothStay(c, c2, p, l, r, Opcode.Binary(op));
    case Unary(op, a) =>
      SameSub(c, c2, p, p + ExprSize(e), p, p + ExprSize(a));
      ExprStays(c, c2, p, a);
      SameAt(c, c2, p, p + ExprSize(e), p + ExprSize(a), Opcode.Unary(op), -1);
    case LogicalAnd(l, r) => BothStay(c, c2, p, l, r, And);
    case LogicalOr(l, r) => BothStay(c, c2, p, l, r, Or);
    case NullCoalesce(_, _) =>
  }

  lemma {:induction false} BothStay(c: Chunk, c2: Chunk, p: nat, l: Source.Expr, r: Source.Expr, op: Opcode)
    requires Same(c, c2, p, p + ExprSize(l) + ExprSize(r) + 1) && BothAt(c, p, l, r, op)
    ensures BothAt(c2, p, l, r, op)
    decreases ExprSize(l) + ExprSize(r)
  {
    hide ExprAt, Same, ExprSize;
    var q := p + ExprSize(l) + ExprSize(r) + 1;
    SameSub(c, c2, p, q, p, p + ExprSize(l));
    SameSub(c, c2, p, q, p + ExprSize(l), q - 1);
    ExprStays(c, c2, p, l);
    ExprStays(c, c2, p + ExprSize(l), r);
    SameAt(c, c2, p, q, q - 1, op, -1);
  }

  lemma SameSub(c: Chunk, c2: Chunk, p: nat, q: nat, p1: nat, q1: nat)
    requires Same(c, c2, p, q) && p <= p1 && q1 <= q
    ensures Same(c, c2, p1, q1)
  {
  }

  /** Patching the breaks of a statement redirects them and nothing else. */
  lemma {:induction false} StmtPatched(c: Chunk, c2: Chunk, p: nat, s: Source.Stmt, cont: int, brk: int, t: int)
    requires StmtAt(c, p, s, cont, brk) && Patched(c, c2, p, p + StmtSize(s), BreaksOf(s, p), t)
    ensures StmtAt(c2, p, s, cont, t)
    decreases s, 1
  {
    hide Patched, ExprAt, StoresAt;
    match s
    case Let(v, e) => StoreStays(c, c2, p, v, e, t);
    case Assign(v, e) => StoreStays(c, c2, p, v, e, t);
    case Print(e) => ExprThen(c, c2, p, e, Opcode.Print, t);
    case ExprStmt(e) => ExprThen(c, c2, p, e, Pop, t);
    case If(x, th, els) => IfPatched(c, c2, p, x, th, els, cont, brk, t);
    case While(x, b) => WhilePatched(c, c2, p, x, b, cont, brk, t);
    case Block(ss) => AllPatched(c, c2, p, ss, cont, brk, t);
    case Break => BreakPatched(c, c2, p, t);
    case Continue =>
      SamePart(c, c2, p, p + 1, [], t, p, p + 1);
      SameAt(c, c2, p, p + 1, p, Jump, cont);
    case Return(e) => ExprThen(c, c2, p, e, ReturnValue, t);
  }

  lemma BreakPatched(c: Chunk, c2: Chunk, p: nat, t: int)
    requires Patched(c, c2, p, p + 1, [p], t)
    ensures IsAt(c2, p, Jump, t)
  {
  }

  lemma ExprThen(c: Chunk, c2: Chunk, p: nat, e: Source.Expr, op: Opcode, t: int)
    requires Patched(c, c2, p, p + ExprSize(e) + 1, [], t) && ExprAt(c, p, e) && IsAt(c, p + ExprSize(e), op, -1)
    ensures ExprAt(c2, p, e) && IsAt(c2, p + ExprSize(e), op, -1)
  {
    ExprStays(c, c2, p, e);
  }

  lemma StoreStays(c: Chunk, c2: Chunk, p: nat, v: Source.Var, e: Source.Expr, t: int)
    requires Patched(c, c2, p, p + ExprSize(e) + 2, [], t) && StoresAt(c, p, v, e)
    ensures StoresAt(c2, p, v, e)
  {
    ExprStays(c, c2, p, e);
  }

  /** The breaks of an `if` are those of its arms, each in its own part of the code. */
  lemma IfBreaks(p: nat, x: Source.Expr, th: Source.Stmt, els: Option<Source.Stmt>)
    ensures var ps := BreaksOf(Source.If(x, th, els), p);
            var q := p + ExprSize(x);
            var m := q + 1 + StmtSize(th);
            var n := p + StmtSize(Source.If(x, th, els));
            && m < n && (forall i :: i in ps ==> q < i < n && i != m)
            && (forall i :: q + 1 <= i < m ==> (i in ps <==> i in BreaksOf(th, q + 1)))
            && (els.Some? ==> n == m + 1 + StmtSize(els.value))
            && (els.Some? ==> forall i :: m + 1 <= i < n ==> (i in ps <==> i in BreaksOf(els.value, m + 1)))
  {
    var q := p + ExprSize(x) + 1;
    BreaksInside(th, q);
    if els.Some? { BreaksInside(els.value, q + StmtSize(th) + 1); }
  }

  lemma {:induction false} IfPatched(c: Chunk, c2: Chunk, p: nat, x: Source.Expr, th: Source.Stmt,
                                     els: Option<Source.Stmt>, cont: int, brk: int, t: int)
    requires var s := Source.If(x, th, els);
             StmtAt(c, p, s, cont, brk) && Patched(c, c2, p, p + StmtSize(s), BreaksOf(s, p), t)
    ensures StmtAt(c2, p, Source.If(x, th, els), cont, t)
    decreases Source.If(x, th, els), 0
  {
    hide Patched, ExprAt, BreaksOf, IsAt, StoresAt, StmtSize;
    var q := p + ExprSize(x);
    var m := q + 1 + StmtSize(th);
    var n := p + StmtSize(Source.If(x, th, els));
    var ps := BreaksOf(Source.If(x, th, els), p);
    IfBreaks(p, x, th, els);
    SamePart(c, c2, p, n, ps, t, p, q + 1);
    SamePart(c, c2, p, n, ps, t, m, m + 1);
    ConditionStays(c, c2, p, x, m + 1);
    SameAt(c, c2, m, m + 1, m, Jump, n);
    PatchedPart(c, c2, p, n, ps, t, q + 1, m, BreaksOf(th, q + 1));
    StmtPatched(c, c2, q + 1, th, cont, brk, t);
    if els.Some? {
      PatchedPart(c, c2, p, n, ps, t, m + 1, n, BreaksOf(els.value, m + 1));
      StmtPatched(c, c2, m + 1, els.value, cont, brk, t);
    }
  }

  lemma ConditionStays(c: Chunk, c2: Chunk, p: nat, x: Source.Expr, t: int)
    requires Same(c, c2, p, p + ExprSize(x) + 1) && ExprAt(c, p, x) && IsAt(c, p + ExprSize(x), JumpIfFalse, t)
    ensures ExprAt(c2, p, x) && IsAt(c2, p + ExprSize(x), JumpIfFalse, t)
  {
    ExprStays(c, c2, p, x);
  }

  lemma {:induction false} WhilePatched(c: Chunk, c2: Chunk, p: nat, x: Source.Expr, b: Source.Stmt,
                                        cont: int, brk: int, t: int)
    requires StmtAt(c, p, Source.While(x, b), cont, brk)
    requires Patched(c, c2, p, p + StmtSize(Source.While(x, b)), [], t)
    ensures StmtAt(c2, p, Source.While(x, b), cont, t)
    decreases Source.While(x, b), 0
  {
    hide Patched, ExprAt;
    var q := p + ExprSize(x);
    var m := q + 1 + StmtSize(b);
    SamePart(c, c2, p, m + 1, [], t, p, q + 1);
    SamePart(c, c2, p, m + 1, [], t, m, m + 1);
    ConditionStays(c, c2, p, x, m + 1);
    SameAt(c, c2, m, m + 1, m, Jump, p);
    BreaksJump(c, q + 1, b, p, m + 1);
    PatchedAsIs(c, c2, p, m + 1, t, q + 1, m, BreaksOf(b, q + 1), m + 1);
    StmtPatched(c, c2, q + 1, b, p, m + 1, m + 1);
  }

  /** Jumps that go where they are sent anyway count as patched. */
  lemma PatchedAsIs(c: Chunk, c2: Chunk, p: nat, q: nat, t: int, p1: nat, q1: nat, ps: seq<nat>, t1: int)
    requires Patched(c, c2, p, q, [], t) && p <= p1 && q1 <= q
    requires forall i :: i in ps ==> IsAt(c, i, Jump, t1)
    ensures Patched(c, c2, p1, q1, ps, t1)
  {
  }

  /** Every break jumps to where breaks go. */
  lemma {:induction false} BreaksJump(c: Chunk, p: nat, s: Source.Stmt, cont: int, brk: int)
    requires StmtAt(c, p, s, cont, brk)
    ensures forall i :: i in BreaksOf(s, p) ==> IsAt(c, i, Jump, brk)
    decreases s, 0
  {
    hide ExprAt, IsAt, StmtSize, StoresAt, ExprSize, AllAt, AllBreaks, AllSize;
    match s
    case If(x, t, els) =>
      BreaksJump(c, p + ExprSize(x) + 1, t, cont, brk);
      if els.Some? { BreaksJump(c, p + ExprSize(x) + 1 + StmtSize(t) + 1, els.value, cont, brk); }
    case Block(ss) => AllBreaksJump(c, p, ss, cont, brk);
    case _ =>
  }

  lemma {:induction false} AllBreaksJump(c: Chunk, p: nat, ss: seq<Source.Stmt>, cont: int, brk: int)
    requires AllAt(c, p, ss, cont, brk)
    ensures forall i :: i in AllBreaks(ss, p) ==> IsAt(c, i, Jump, brk)
    decreases ss, 1
  {
    if ss != [] {
      BreaksJump(c, p, ss[0], cont, brk);
      AllBreaksJump(c, p + StmtSize(ss[0]), ss[1..], cont, brk);
    }
  }

  lemma {:induction false} AllPatched(c: Chunk, c2: Chunk, p: nat, ss: seq<Source.Stmt>, cont: int, brk: int, t: int)
    requires AllAt(c, p, ss, cont, brk) && Patched(c, c2, p, p + AllSize(ss), AllBreaks(ss, p), t)
    ensures AllAt(c2, p, ss, cont, t)
    decreases ss, 1
  {
    hide Patched;
    if ss != [] {
      var m := p + StmtSize(ss[0]);
      BreaksInside(ss[0], p);
      AllBreaksInside(ss[1..], m);
      PatchedPart(c, c2, p, p + AllSize(ss), AllBreaks(ss, p), t, p, m, BreaksOf(ss[0], p));
      PatchedPart(c, c2, p, p + AllSize(ss), AllBreaks(ss, p), t, m, p + AllSize(ss), AllBreaks(ss[1..], m));
      StmtPatched(c, c2, p, ss[0], cont, brk, t);
      AllPatched(c, c2, p + StmtSize(ss[0]), ss[1..], cont, brk, t);
    }
  }

  /** Code that is not touched stays the code of its statement. */
  lemma StmtStays(c: Chunk, c2: Chunk, p: nat, s: Source.Stmt, cont: int, brk: int)
    requires StmtAt(c, p, s, cont, brk) && Patched(c, c2, p, p + StmtSize(s), [], 0)
    ensures StmtAt(c2, p, s, cont, brk)
  {
    BreaksJump(c, p, s, cont, brk);
    PatchedAsIs(c, c2, p, p + StmtSize(s), 0, p, p + StmtSize(s), BreaksOf(s, p), brk);
    StmtPatched(c, c2, p, s, cont, brk, brk);
  }

  lemma AllStays(c: Chunk, c2: Chunk, p: nat, ss: seq<Source.Stmt>, cont: int, brk: int)
    requires AllAt(c, p, ss, cont, brk) && Patched(c, c2, p, p + AllSize(ss), [], 0)
    ensures AllAt(c2, p, ss, cont, brk)
  {
    AllBreaksJump(c, p, ss, cont, brk);
    PatchedAsIs(c, c2, p, p + AllSize(ss), 0, p, p + AllSize(ss), AllBreaks(ss, p), brk);
    AllPatched(c, c2, p, ss, cont, brk, brk);
  }

  lemma {:induction false} AllAppend(c: Chunk, p: nat, ss: seq<Source.Stmt>, s: Source.Stmt, cont: int, brk: int)
    requires AllAt(c, p, ss, cont, brk) && StmtAt(c, p + AllSize(ss), s, cont, brk)
    ensures AllAt(c, p, ss + [s], cont, brk) && AllSize(ss + [s]) == AllSize(ss) + StmtSize(s)
    ensures AllBreaks(ss + [s], p) == AllBreaks(ss, p) + BreaksOf(s, p + AllSize(ss))
    decreases ss
  {
    hide StmtAt, StmtSize, BreaksOf;
    if ss == [] {
      assert [s][1..] == [];
      assert ss + [s] == [s];
    } else {
      AllAppend(c, p + StmtSize(ss[0]), ss[1..], s, cont, brk);
      assert (ss + [s])[1..] == ss[1..] + [s];
    }
  }
}
