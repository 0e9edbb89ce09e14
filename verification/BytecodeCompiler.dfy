/** The bytecode compiler: code is appended, and jumps forward are patched when their target is known. */
module BytecodeCompiler {
  import opened Wrappers
  import opened VirtualMachine
  import opened BytecodeLayout
  import Source

  datatype LoopCtx = LoopCtx(continuePos: nat, breakPositions: seq<nat>)

  predicate ExprCompiles(e: Source.Expr) {
    match e
    case Literal(_) => true
    case Variable(_) => true
    case Binary(_, l, r) => ExprCompiles(l) && ExprCompiles(r)
    case Unary(_, a) => ExprCompiles(a)
    case LogicalAnd(l, r) => ExprCompiles(l) && ExprCompiles(r)
    case LogicalOr(l, r) => ExprCompiles(l) && ExprCompiles(r)
    case NullCoalesce(_, _) => false
  }

  /** No `??`, and break and continue only inside loops; dead code is compiled too. */
  predicate Compiles(s: Source.Stmt, inLoop: bool) {
    match s
    case Let(_, e) => ExprCompiles(e)
    case Assign(_, e) => ExprCompiles(e)
    case Print(e) => ExprCompiles(e)
    case ExprStmt(e) => ExprCompiles(e)
    case If(c, t, els) => ExprCompiles(c) && Compiles(t, inLoop) && (els.Some? ==> Compiles(els.value, inLoop))
    case While(c, b) => ExprCompiles(c) && Compiles(b, true)
    case Block(ss) => forall i :: 0 <= i < |ss| ==> Compiles(ss[i], inLoop)
    case Break => inLoop
    case Continue => inLoop
    case Return(e) => ExprCompiles(e)
  }

  /** The pool holds each constant once, where the map says. */
  ghost predicate PoolRight(constants: seq<Source.Constant>, constantMap: map<Source.Constant, nat>) {
    && (forall k :: k in constantMap ==> constantMap[k] < |constants| && constants[constantMap[k]] == k)
    && (forall i :: 0 <= i < |constants| ==> constants[i] in constantMap && constantMap[constants[i]] == i)
  }

  /** c2 goes on from c; of c's code only the instructions at `holes` may have changed. */
  ghost predicate Extends(c: Chunk, c2: Chunk, holes: set<nat>) {
    && |c.code| <= |c2.code| && c.constants <= c2.constants
    && forall i: nat :: i < |c.code| && i !in holes ==> c2.code[i] == c.code[i]
  }

  /** c2 is c followed by n more instructions. */
  ghost predicate Longer(c: Chunk, c2: Chunk, n: nat) {
    Extends(c, c2, {}) && |c2.code| == |c.code| + n
  }

  function Positions(ps: seq<nat>): set<nat> {
    set i: nat | i in ps
  }

  function ContinueOf(loops: seq<LoopCtx>): int {
    if loops == [] then -1 else loops[|loops| - 1].continuePos
  }

  /** The innermost loop has some more breaks to patch. */
  function WithBreaks(loops: seq<LoopCtx>, breaks: seq<nat>): seq<LoopCtx> {
    if loops == [] then []
    else
      var last := |loops| - 1;
      loops[last := LoopCtx(loops[last].continuePos, loops[last].breakPositions + breaks)]
  }

  /** A jump to `start` has been added, and the jumps at ps and `exit` go past it. */
  ghost predicate LoopClosed(c: Chunk, fin: Chunk, ps: seq<nat>, start: nat, exit: nat) {
    && |fin.code| == |c.code| + 1 && fin.constants == c.constants && IsAt(fin, |c.code|, Jump, start)
    && forall i: nat :: i < |c.code| ==>
         fin.code[i] == if i in ps then Instruction(Jump, |fin.code|)
                        else if i == exit then Instruction(JumpIfFalse, |fin.code|)
                        else c.code[i]
  }

  class Compiler {
    var code: seq<Instruction>
    var constants: seq<Source.Constant>
    var constantMap: map<Source.Constant, nat>
    var loopStack: seq<LoopCtx>

    function Made(): Chunk
      reads this
    {
      Chunk(code, constants)
    }

    ghost predicate Valid()
      reads this
    {
      PoolRight(constants, constantMap)
    }

    constructor ()
      ensures Valid() && Made() == Chunk([], []) && loopStack == []
    {
      code, constants, constantMap, loopStack := [], [], map[], [];
    }

    method Emit(op: Opcode, operand: int := -1)
      modifies this`code
      ensures code == old(code) + [Instruction(op, operand)]
    {
      code := code + [Instruction(op, operand)];
    }

    /** A constant that is in the pool is not added again. */
    method AddConstant(k: Source.Constant) returns (index: nat)
      requires Valid()
      modifies this`constants, this`constantMap
      ensures Valid() && index < |constants| && constants[index] == k
      ensures constants == if k in old(constants) then old(constants) else old(constants) + [k]
    {
      if k in constantMap { return constantMap[k]; }
      index := |constants|;
      constants := constants + [k];
      constantMap := constantMap[k := index];
    }

    // ----- expressions -----

    method VisitExpr(e: Source.Expr) returns (ok: bool)
      requires Valid()
      modifies this`code, this`constants, this`constantMap
      ensures Valid() && (ok <==> ExprCompiles(e))
      ensures ok ==> Longer(old(Made()), Made(), ExprSize(e)) && ExprAt(Made(), |old(code)|, e)
      decreases ExprSize(e)
    {
      ok := true;
      match e
      case Literal(k) =>
        var index := AddConstant(k);
        Emit(PushConst, index);
      case Variable(v) => Emit(LoadLocal, v);
      case Binary(op, l, r) => ok := VisitBoth(l, r, Opcode.Binary(op));
      case Unary(op, a) =>
        ghost var p := |code|;
        ok := VisitExpr(a);
        if !ok { return; }
        ghost var c1 := Made();
        Emit(Opcode.Unary(op));
        KeepsExpr(c1, Made(), {}, p, a);
      case LogicalAnd(l, r) => ok := VisitBoth(l, r, And);
      case LogicalOr(l, r) => ok := VisitBoth(l, r, Or);
      case NullCoalesce(_, _) => ok := false;
    }

    /** Both operands and then the instruction that combines them: `&&` and `||` do not skip any. */
    method VisitBoth(l: Source.Expr, r: Source.Expr, op: Opcode) returns (ok: bool)
      requires Valid()
      modifies this`code, this`constants, this`constantMap
      ensures Valid() && (ok <==> ExprCompiles(l) && ExprCompiles(r))
      ensures ok ==> Longer(old(Made()), Made(), ExprSize(l) + ExprSize(r) + 1) && BothAt(Made(), |old(code)|, l, r, op)
      decreases ExprSize(l) + ExprSize(r)
    {
      ghost var c0 := Made();
      ok := VisitExpr(l);
      if !ok { return; }
      ghost var c1 := Made();
      ok := VisitExpr(r);
      if !ok { return; }
      ghost var c2 := Made();
      Emit(op);
      KeepsExpr(c1, Made(), {}, |c0.code|, l);
      KeepsExpr(c2, Made(), {}, |c1.code|, r);
    }

    // ----- statements -----

    /** A jump whose target is not known yet. */
    method EmitJump(op: Opcode) returns (pos: nat)
      modifies this`code
      ensures code == old(code) + [Instruction(op, -1)] && pos == |old(code)|
    {
      Emit(op);
      pos := |code| - 1;
    }

    /** The jump goes to the end of the code so far. */
    method PatchJump(pos: nat)
      requires pos < |code|
      modifies this`code
      ensures code == old(code)[pos := Instruction(old(code)[pos].opcode, |old(code)|)]
    {
      code := code[pos := Instruction(code[pos].opcode, |code|)];
    }

    method PatchAll(positions: seq<nat>)
      requires forall i :: i in positions ==> i < |code|
      modifies this`code
      ensures |code| == |old(code)|
      ensures forall i :: 0 <= i < |code| ==>
        code[i] == if i in positions then Instruction(old(code)[i].opcode, |code|) else old(code)[i]
    {
      var k: nat := 0;
      while k < |positions|
        invariant k <= |positions| && |code| == |old(code)|
        invariant forall i :: 0 <= i < |code| ==>
          code[i] == if i in positions[..k] then Instruction(old(code)[i].opcode, |code|) else old(code)[i]
      {
        assert positions[k] in positions;
        PatchJump(positions[k]);
        assert positions[..k + 1] == positions[..k] + [positions[k]];
        k := k + 1;
      }
      assert positions[..k] == positions;
    }

    /** Compiles a statement; false stands for one of the compiler's errors. The breaks of the loop around it
        are recorded, to be patched when the loop ends. */
    method VisitStmt(s: Source.Stmt) returns (ok: bool)
      requires Valid()
      modifies this
      ensures Valid() && (ok <==> Compiles(s, old(loopStack) != []))
      ensures ok ==> Longer(old(Made()), Made(), StmtSize(s))
      ensures ok ==> StmtAt(Made(), |old(code)|, s, ContinueOf(old(loopStack)), -1)
      ensures ok ==> loopStack == WithBreaks(old(loopStack), BreaksOf(s, |old(code)|))
      decreases s, 1
    {
      match s
      case If(c, t, els) => ok := VisitIf(c, t, els);
      case While(c, b) => ok := VisitWhile(c, b);
      case Block(ss) => ok := VisitBlock(ss);
      case _ => ok := VisitSimple(s);
    }

    /** The statements that have no statements in them. */
    method VisitSimple(s: Source.Stmt) returns (ok: bool)
      requires Valid() && !s.If? && !s.While? && !s.Block?
      modifies this
      ensures Valid() && (ok <==> Compiles(s, old(loopStack) != []))
      ensures ok ==> Longer(old(Made()), Made(), StmtSize(s))
      ensures ok ==> StmtAt(Made(), |old(code)|, s, ContinueOf(old(loopStack)), -1)
      ensures ok ==> loopStack == WithBreaks(old(loopStack), BreaksOf(s, |old(code)|))
    {
      WithMoreBreaks(loopStack, [], []);
      match s
      case Let(v, e) => ok := VisitStore(v, e);
      case Assign(v, e) => ok := VisitStore(v, e);
      case Print(e) => ok := VisitThen(e, Opcode.Print);
      case ExprStmt(e) => ok := VisitThen(e, Pop);
      case Return(e) => ok := VisitThen(e, ReturnValue);
      case Break =>
        ok := loopStack != [];
        if !ok { return; }
        var pos := EmitJump(Jump);
        var last := |loopStack| - 1;
        loopStack := loopStack[last := LoopCtx(loopStack[last].continuePos, loopStack[last].breakPositions + [pos])];
      case Continue =>
        ok := loopStack != [];
        if !ok { return; }
        Emit(Jump, loopStack[|loopStack| - 1].continuePos);
    }

    method VisitIf(c: Source.Expr, t: Source.Stmt, els: Option<Source.Stmt>) returns (ok: bool)
      requires Valid()
      modifies this
      ensures Valid()
      ensures ok <==> Compiles(Source.If(c, t, els), old(loopStack) != [])
      ensures ok ==> Longer(old(Made()), Made(), StmtSize(Source.If(c, t, els)))
      ensures ok ==> StmtAt(Made(), |old(code)|, Source.If(c, t, els), ContinueOf(old(loopStack)), -1)
      ensures ok ==> loopStack == WithBreaks(old(loopStack), BreaksOf(Source.If(c, t, els), |old(code)|))
      decreases Source.If(c, t, els), 0
    {
      hide StmtAt, ExprAt, BreaksOf, WithBreaks, ContinueOf, Extends, Compiles, StmtSize;
      ghost var c0, loops := Made(), loopStack;
      IfIs(c, t, els, |c0.code|, loops != []);
      ok := VisitExpr(c);
      if !ok { return; }
      ghost var c1 := Made();
      var falseJumpPos := EmitJump(JumpIfFalse);
      ghost var c2 := Made();
      EmitExtends(c1, c2, JumpIfFalse, -1);
      ok := VisitStmt(t);
      if !ok { return; }
      ghost var c3 := Made();
      ExtendsTrans(c1, c2, c3, {}, {});
      KeepsAt(c2, c3, {}, falseJumpPos, JumpIfFalse, -1);
      var endJump := EmitJump(Jump);
      ghost var c4 := Made();
      EmitExtends(c3, c4, Jump, -1);
      KeepsAt(c3, c4, {}, falseJumpPos, JumpIfFalse, -1);
      PatchJump(falseJumpPos);
      ghost var c5 := Made();
      PatchExtends(c4, c5, falseJumpPos, JumpIfFalse);
      ExtendsTrans(c3, c4, c5, {}, {falseJumpPos});
      KeepsAt(c4, c5, {falseJumpPos}, endJump, Jump, -1);
      WithMoreBreaks(loops, BreaksOf(t, |c2.code|), if els.Some? then BreaksOf(els.value, |c5.code|) else []);
      if els.Some? {
        ok := VisitStmt(els.value);
        if !ok { return; }
        KeepsAt(c5, Made(), {}, endJump, Jump, -1);
      }
      ghost var c6 := Made();
      PatchJump(endJump);
      PatchExtends(c6, Made(), endJump, Jump);
      IfDone(c0, c1, c3, c5, c6, Made(), c, t, els, ContinueOf(loops));
    }

    method VisitWhile(c: Source.Expr, b: Source.Stmt) returns (ok: bool)
      requires Valid()
      modifies this
      ensures Valid() && (ok <==> ExprCompiles(c) && Compiles(b, true))
      ensures ok ==> Longer(old(Made()), Made(), StmtSize(Source.While(c, b)))
      ensures ok ==> StmtAt(Made(), |old(code)|, Source.While(c, b), ContinueOf(old(loopStack)), -1)
      ensures ok ==> loopStack == WithBreaks(old(loopStack), [])
      decreases Source.While(c, b), 0
    {
      hide StmtAt, ExprAt, BreaksOf, Extends, Compiles, StmtSize, Patched, PoolRight, ExprCompiles, ExprSize, IsAt,
           Longer;
      ghost var c0, loops := Made(), loopStack;
      var loopStart := |code|;
      ok := VisitExpr(c);
      if !ok { return; }
      ghost var c1 := Made();
      var exitJumpPos := EmitJump(JumpIfFalse);
      loopStack := loopStack + [LoopCtx(loopStart, [])];
      ghost var c2 := Made();
      EmitExtends(c1, c2, JumpIfFalse, -1);
      ok := VisitStmt(b);
      if !ok { return; }
      ghost var c3 := Made();
      ExtendsTrans(c1, c2, c3, {}, {});
      KeepsAt(c2, c3, {}, exitJumpPos, JumpIfFalse, -1);
      BreaksInside(b, |c2.code|);
      BreaksJump(c3, |c2.code|, b, loopStart, -1);
      FinishLoop(loopStart, exitJumpPos);
      assert loopStack == loops;
      WhileDone(c0, c1, c3, Made(), c, b, ContinueOf(loops));
      WithMoreBreaks(loops, [], []);
    }

    /** The jump back, and the jumps out of the innermost loop. */
    method FinishLoop(loopStart: nat, exitJumpPos: nat)
      requires loopStack != [] && IsAt(Made(), exitJumpPos, JumpIfFalse, -1)
      requires forall i :: i in loopStack[|loopStack| - 1].breakPositions ==> IsAt(Made(), i, Jump, -1)
      modifies this`code, this`loopStack
      ensures loopStack == old(loopStack)[..|old(loopStack)| - 1]
      ensures var loopCtx := old(loopStack)[|old(loopStack)| - 1];
              LoopClosed(old(Made()), Made(), loopCtx.breakPositions, loopStart, exitJumpPos)
    {
      var loopCtx := loopStack[|loopStack| - 1];
      ghost var c := Made();
      Emit(Jump, loopStart);
      loopStack := loopStack[..|loopStack| - 1];
      forall i | i in loopCtx.breakPositions ensures i < |code| && code[i] == Instruction(Jump, -1) {
        assert IsAt(c, i, Jump, -1);
      }
      PatchAll(loopCtx.breakPositions);
      PatchJump(exitJumpPos);
    }

    method VisitBlock(ss: seq<Source.Stmt>) returns (ok: bool)
      requires Valid()
      modifies this
      ensures Valid() && (ok <==> forall i :: 0 <= i < |ss| ==> Compiles(ss[i], old(loopStack) != []))
      ensures ok ==> Longer(old(Made()), Made(), AllSize(ss))
      ensures ok ==> AllAt(Made(), |old(code)|, ss, ContinueOf(old(loopStack)), -1)
      ensures ok ==> loopStack == WithBreaks(old(loopStack), AllBreaks(ss, |old(code)|))
      decreases ss, 0
    {
      ghost var c0, loops := Made(), loopStack;
      var i: nat := 0;
      WithMoreBreaks(loops, [], []);
      while i < |ss|
        invariant i <= |ss| && Valid() && forall k :: 0 <= k < i ==> Compiles(ss[k], loops != [])
        invariant Longer(c0, Made(), AllSize(ss[..i]))
        invariant AllAt(Made(), |c0.code|, ss[..i], ContinueOf(loops), -1)
        invariant loopStack == WithBreaks(loops, AllBreaks(ss[..i], |c0.code|))
      {
        ghost var c1 := Made();
        WithMoreBreaks(loops, AllBreaks(ss[..i], |c0.code|), BreaksOf(ss[i], |c1.code|));
        ok := VisitStmt(ss[i]);
        if !ok { return; }
        OneMore(c0, c1, Made(), ss[..i], ss[i], ContinueOf(loops));
        assert ss[..i] + [ss[i]] == ss[..i + 1];
        i := i + 1;
      }
      assert ss[..i] == ss;
      ok := true;
    }

    method VisitThen(e: Source.Expr, op: Opcode) returns (ok: bool)
      requires Valid()
      modifies this`code, this`constants, this`constantMap
      ensures Valid() && (ok <==> ExprCompiles(e))
      ensures ok ==> Longer(old(Made()), Made(), ExprSize(e) + 1)
      ensures ok ==> ExprAt(Made(), |old(code)|, e) && IsAt(Made(), |old(code)| + ExprSize(e), op, -1)
    {
      ghost var p := |code|;
      ok := VisitExpr(e);
      if !ok { return; }
      ghost var c1 := Made();
      Emit(op);
      KeepsExpr(c1, Made(), {}, p, e);
    }

    method VisitStore(v: Source.Var, e: Source.Expr) returns (ok: bool)
      requires Valid()
      modifies this`code, this`constants, this`constantMap
      ensures Valid() && (ok <==> ExprCompiles(e))
      ensures ok ==> Longer(old(Made()), Made(), ExprSize(e) + 2) && StoresAt(Made(), |old(code)|, v, e)
    {
      ghost var p := |code|;
      ok := VisitExpr(e);
      if !ok { return; }
      ghost var c1 := Made();
      Emit(StoreLocal, v);
      Emit(Pop);
      KeepsExpr(c1, Made(), {}, p, e);
    }
  }

  lemma EmitExtends(c: Chunk, c2: Chunk, op: Opcode, operand: int)
    requires c2 == Chunk(c.code + [Instruction(op, operand)], c.constants)
    ensures Longer(c, c2, 1) && IsAt(c2, |c.code|, op, operand)
  {
  }

  lemma PatchExtends(c: Chunk, c2: Chunk, pos: nat, op: Opcode)
    requires IsAt(c, pos, op, -1) && c2 == Chunk(c.code[pos := Instruction(op, |c.code|)], c.constants)
    ensures Extends(c, c2, {pos}) && |c2.code| == |c.code| && IsAt(c2, pos, op, |c2.code|)
  {
  }

  lemma ExtendsRefl(c: Chunk)
    ensures Extends(c, c, {})
  {
  }

  /** Changes past the end of c do not matter to it. */
  lemma NothingBefore(c: Chunk, c2: Chunk, holes: set<nat>)
    requires Extends(c, c2, holes) && forall i :: i in holes ==> i >= |c.code|
    ensures Extends(c, c2, {})
  {
  }

  lemma KeepsAt(c: Chunk, c2: Chunk, holes: set<nat>, i: nat, op: Opcode, operand: int)
    requires Extends(c, c2, holes) && IsAt(c, i, op, operand) && i !in holes
    ensures IsAt(c2, i, op, operand)
  {
  }

  lemma ExtendsTrans(a: Chunk, b: Chunk, c: Chunk, h: set<nat>, k: set<nat>)
    requires Extends(a, b, h) && Extends(b, c, k)
    ensures Extends(a, c, h + k) && |a.code| <= |c.code|
    ensures h == {} ==> Extends(a, c, k)
  {
  }

  /** Changes outside a stretch leave it alone. */
  lemma ExtendsSame(c: Chunk, c2: Chunk, holes: set<nat>, p: nat, q: nat)
    requires Extends(c, c2, holes) && q <= |c.code| && forall i :: i in holes ==> i < p || i >= q
    ensures Same(c, c2, p, q)
  {
  }

  lemma KeepsExpr(c: Chunk, c2: Chunk, holes: set<nat>, p: nat, e: Source.Expr)
    requires ExprAt(c, p, e) && p + ExprSize(e) <= |c.code| && Extends(c, c2, holes)
    requires forall i :: i in holes ==> i < p || i >= p + ExprSize(e)
    ensures ExprAt(c2, p, e)
  {
    ExtendsSame(c, c2, holes, p, p + ExprSize(e));
    ExprStays(c, c2, p, e);
  }

  /** Whether an `if` compiles, and where its breaks are. */
  lemma IfIs(x: Source.Expr, t: Source.Stmt, els: Option<Source.Stmt>, p: nat, inLoop: bool)
    ensures Compiles(Source.If(x, t, els), inLoop)
         <==> ExprCompiles(x) && Compiles(t, inLoop) && (els.Some? ==> Compiles(els.value, inLoop))
    ensures BreaksOf(Source.If(x, t, els), p)
         == BreaksOf(t, p + ExprSize(x) + 1)
            + if els.Some? then BreaksOf(els.value, p + ExprSize(x) + 1 + StmtSize(t) + 1) else []
  {
  }

  lemma IfIsAt(c: Chunk, p: nat, x: Source.Expr, t: Source.Stmt, els: Option<Source.Stmt>, m: nat, n: nat, cont: int)
    requires m == p + ExprSize(x) + 1 + StmtSize(t) && n == m + 1 + (if els.Some? then StmtSize(els.value) else 0)
    requires ExprAt(c, p, x) && IsAt(c, p + ExprSize(x), JumpIfFalse, m + 1)
    requires StmtAt(c, p + ExprSize(x) + 1, t, cont, -1) && IsAt(c, m, Jump, n)
    requires els.Some? ==> StmtAt(c, m + 1, els.value, cont, -1)
    ensures StmtAt(c, p, Source.If(x, t, els), cont, -1) && n == p + StmtSize(Source.If(x, t, els))
  {
  }

  /** The code of an `if`: condition compiled (c1), then arm compiled (c3), jump over the else arm emitted and
      the jump to it patched (c5), else arm compiled (c6), jump over it patched. */
  lemma IfDone(c0: Chunk, c1: Chunk, c3: Chunk, c5: Chunk, c6: Chunk, fin: Chunk, x: Source.Expr, t: Source.Stmt,
               els: Option<Source.Stmt>, cont: int)
    requires Longer(c0, c1, ExprSize(x)) && ExprAt(c1, |c0.code|, x)
    requires var q := |c1.code|;
             Extends(c1, c3, {}) && |c3.code| == q + 1 + StmtSize(t) && StmtAt(c3, q + 1, t, cont, -1)
    requires var q, m := |c1.code|, |c3.code|;
             Extends(c3, c5, {q}) && |c5.code| == m + 1 && IsAt(c5, q, JumpIfFalse, m + 1)
    requires els.None? ==> c6 == c5
    requires els.Some? ==> Longer(c5, c6, StmtSize(els.value)) && StmtAt(c6, |c5.code|, els.value, cont, -1)
    requires Extends(c6, fin, {|c3.code|}) && |fin.code| == |c6.code| && IsAt(fin, |c3.code|, Jump, |fin.code|)
    ensures Longer(c0, fin, StmtSize(Source.If(x, t, els)))
    ensures StmtAt(fin, |c0.code|, Source.If(x, t, els), cont, -1)
  {
    hide Extends, ExprAt, StmtAt, StmtSize, IsAt, ExprSize;
    var q, m := |c1.code|, |c3.code|;
    var h := {q} + {m};
    IfExtends(c0, c1, c3, c5, c6, fin, q, m);
    KeepsExpr(c1, fin, h, |c0.code|, x);
    KeepsStmt(c3, fin, h, q + 1, t, cont, -1);
    if els.Some? { KeepsStmt(c6, fin, {m}, m + 1, els.value, cont, -1); }
    KeepsAt(c5, fin, {m}, q, JumpIfFalse, m + 1);
    IfIsAt(fin, |c0.code|, x, t, els, m, |fin.code|, cont);
  }

  lemma IfExtends(c0: Chunk, c1: Chunk, c3: Chunk, c5: Chunk, c6: Chunk, fin: Chunk, q: nat, m: nat)
    requires Extends(c0, c1, {}) && Extends(c1, c3, {}) && Extends(c3, c5, {q})
    requires c6 == c5 || Extends(c5, c6, {})
    requires Extends(c6, fin, {m}) && q >= |c0.code| && m >= |c0.code|
    ensures Extends(c5, fin, {m}) && Extends(c3, fin, {q} + {m}) && Extends(c1, fin, {q} + {m}) && Extends(c0, fin, {})
  {
    hide Extends;
    if c6 == c5 { ExtendsRefl(c5); }
    var h := {q} + {m};
    ExtendsTrans(c5, c6, fin, {}, {m});
    ExtendsTrans(c3, c5, fin, {q}, {m});
    ExtendsTrans(c1, c3, fin, {}, h);
    ExtendsTrans(c0, c1, fin, {}, h);
    NothingBefore(c0, fin, h);
  }

  lemma WhileIsAt(c: Chunk, p: nat, x: Source.Expr, b: Source.Stmt, m: nat, cont: int)
    requires m == p + ExprSize(x) + 1 + StmtSize(b)
    requires ExprAt(c, p, x) && IsAt(c, p + ExprSize(x), JumpIfFalse, m + 1)
    requires StmtAt(c, p + ExprSize(x) + 1, b, p, m + 1) && IsAt(c, m, Jump, p)
    ensures StmtAt(c, p, Source.While(x, b), cont, -1) && m + 1 == p + StmtSize(Source.While(x, b))
  {
  }

  /** The code of a loop: condition compiled (c1), body compiled (c3), loop closed. */
  lemma WhileDone(c0: Chunk, c1: Chunk, c3: Chunk, fin: Chunk, x: Source.Expr, b: Source.Stmt, cont: int)
    requires Longer(c0, c1, ExprSize(x)) && ExprAt(c1, |c0.code|, x)
    requires var q := |c1.code|;
             Extends(c1, c3, {}) && |c3.code| == q + 1 + StmtSize(b) && StmtAt(c3, q + 1, b, |c0.code|, -1)
    requires IsAt(c3, |c1.code|, JumpIfFalse, -1)
    requires LoopClosed(c3, fin, BreaksOf(b, |c1.code| + 1), |c0.code|, |c1.code|)
    ensures Longer(c0, fin, StmtSize(Source.While(x, b)))
    ensures StmtAt(fin, |c0.code|, Source.While(x, b), cont, -1)
  {
    hide Extends, ExprAt, Patched, StmtAt, StmtSize, BreaksOf, LoopClosed;
    var q, m := |c1.code|, |c3.code|;
    BreaksInside(b, q + 1);
    ClosedParts(c3, fin, b, |c0.code|, q, m);
    var h := Positions(BreaksOf(b, q + 1)) + {q};
    StmtPatched(c3, fin, q + 1, b, |c0.code|, -1, m + 1);
    ExtendsTrans(c1, c3, fin, {}, h);
    ExtendsTrans(c0, c1, fin, {}, h);
    KeepsExpr(c1, fin, h, |c0.code|, x);
    NothingBefore(c0, fin, h);
    WhileIsAt(fin, |c0.code|, x, b, m, cont);
  }

  lemma ClosedParts(c3: Chunk, fin: Chunk, b: Source.Stmt, start: nat, q: nat, m: nat)
    requires m == |c3.code| == q + 1 + StmtSize(b) && IsAt(c3, q, JumpIfFalse, -1)
    requires LoopClosed(c3, fin, BreaksOf(b, q + 1), start, q)
    ensures |fin.code| == m + 1 && IsAt(fin, m, Jump, start) && IsAt(fin, q, JumpIfFalse, m + 1)
    ensures Patched(c3, fin, q + 1, m, BreaksOf(b, q + 1), m + 1)
    ensures Extends(c3, fin, Positions(BreaksOf(b, q + 1)) + {q})
  {
    BreaksInside(b, q + 1);
  }

  lemma OneMore(c0: Chunk, c1: Chunk, c2: Chunk, ss: seq<Source.Stmt>, s: Source.Stmt, cont: int)
    requires Longer(c0, c1, AllSize(ss)) && AllAt(c1, |c0.code|, ss, cont, -1)
    requires Longer(c1, c2, StmtSize(s)) && StmtAt(c2, |c1.code|, s, cont, -1)
    ensures Longer(c0, c2, AllSize(ss + [s])) && AllAt(c2, |c0.code|, ss + [s], cont, -1)
    ensures AllBreaks(ss + [s], |c0.code|) == AllBreaks(ss, |c0.code|) + BreaksOf(s, |c1.code|)
  {
    ExtendsSame(c1, c2, {}, |c0.code|, |c0.code| + AllSize(ss));
    AllStays(c1, c2, |c0.code|, ss, cont, -1);
    AllAppend(c2, |c0.code|, ss, s, cont, -1);
  }

  lemma WithMoreBreaks(loops: seq<LoopCtx>, a: seq<nat>, b: seq<nat>)
    ensures WithBreaks(WithBreaks(loops, a), b) == WithBreaks(loops, a + b)
    ensures WithBreaks(loops, a) == WithBreaks(loops, a + []) && WithBreaks(loops, []) == loops
    ensures ContinueOf(WithBreaks(loops, a)) == ContinueOf(loops)
    ensures WithBreaks(loops, a) == [] <==> loops == []
  {
    assert a + [] == a;
    if loops != [] {
      var bs := loops[|loops| - 1].breakPositions;
      assert bs + [] == bs;
      assert (bs + a) + b == bs + (a + b);
    }
  }

  lemma KeepsStmt(c: Chunk, c2: Chunk, holes: set<nat>, p: nat, s: Source.Stmt, cont: int, brk: int)
    requires StmtAt(c, p, s, cont, brk) && p + StmtSize(s) <= |c.code| && Extends(c, c2, holes)
    requires forall i :: i in holes ==> i < p || i >= p + StmtSize(s)
    ensures StmtAt(c2, p, s, cont, brk)
  {
    ExtendsSame(c, c2, holes, p, p + StmtSize(s));
    StmtStays(c, c2, p, s, cont, brk);
  }
}
