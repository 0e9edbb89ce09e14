/** The builder itself: visitors that append to the current block, end it, and move on. */
module IrBuilder {
  import opened Wrappers
  import opened Hir
  import opened Lowering
  import opened LoweringGrowth
  import opened LoweringEnds
  import opened Scoping
  import Source

  class IRBuilder {
    var blocks: seq<Draft>
    var currBlock: nat
    var nextId: nat
    var loopStack: seq<Loop>
    var lastValue: Operand

    function State(): Builder
      reads this
    {
      Builder(blocks, currBlock, nextId, loopStack)
    }

    /** The graph starts as one empty block. */
    constructor ()
      ensures State() == Builder([EMPTY], 0, 0, [])
    {
      blocks, currBlock, nextId, loopStack, lastValue := [EMPTY], 0, 0, [], Value(0);
    }

    method MakeBlock() returns (b: nat)
      modifies this`blocks
      ensures State() == Lowering.MakeBlock(old(State())) && b == |old(blocks)|
    {
      b := |blocks|;
      blocks := blocks + [EMPTY];
    }

    method Emit(i: Instr)
      requires currBlock < |blocks|
      modifies this`blocks
      ensures State() == Lowering.Emit(old(State()), i)
    {
      blocks := blocks[currBlock := blocks[currBlock].(code := blocks[currBlock].code + [i])];
    }

    method MakeValue() returns (id: Val)
      modifies this`nextId
      ensures id == old(nextId) && nextId == old(nextId) + 1
    {
      id := nextId;
      nextId := nextId + 1;
    }

    /** An instruction with a value of its own, which becomes the last value. */
    method Produce(op: Op, args: seq<Operand>)
      requires currBlock < |blocks|
      modifies this`blocks, this`nextId, this`lastValue
      ensures State() == Lowering.Produce(old(State()), op, args) && lastValue == Value(old(nextId))
    {
      var dst := MakeValue();
      Emit(Compute(op, dst, args, None));
      lastValue := Value(dst);
    }

    method SetTerm(t: Term)
      requires currBlock < |blocks|
      modifies this`blocks
      ensures State() == Lowering.SetTerm(old(State()), t)
    {
      blocks := blocks[currBlock := blocks[currBlock].(term := Some(t))];
    }

    method ConnectBlock(p: nat, b: nat)
      requires p < |blocks| && b < |blocks|
      modifies this`blocks
      ensures State() == Connect(old(State()), p, b)
    {
      blocks := blocks[p := blocks[p].(succs := blocks[p].succs + [b])];
      blocks := blocks[b := blocks[b].(preds := blocks[b].preds + [p])];
    }

    method EndWithJump(b: nat)
      requires currBlock < |blocks| && b < |blocks|
      modifies this`blocks
      ensures State() == JumpTo(old(State()), b)
    {
      SetTerm(Jump(b));
      ConnectBlock(currBlock, b);
    }

    method EndWithBranch(c: Operand, t: nat, f: nat)
      requires currBlock < |blocks| && t < |blocks| && f < |blocks|
      modifies this`blocks
      ensures State() == BranchTo(old(State()), c, t, f)
    {
      SetTerm(Branch(c, t, f));
      ConnectBlock(currBlock, t);
      ConnectBlock(currBlock, f);
    }

    method EndUnlessDone(b: nat)
      requires currBlock < |blocks| && b < |blocks|
      modifies this`blocks
      ensures State() == JumpUnlessDone(old(State()), b)
    {
      if blocks[currBlock].term.None? { EndWithJump(b); }
    }

    // ----- expressions -----

    /** Lowers an expression; the operand that holds its value is the last value. */
    method VisitExpr(e: Source.Expr)
      requires currBlock < |blocks|
      modifies this`blocks, this`currBlock, this`nextId, this`lastValue
      ensures currBlock < |blocks| && (State(), lastValue) == LowerExpr(e, old(State()))
      decreases e, 1
    {
      match e
      case Literal(c) => Produce(ConstInt(c.Word()), []);
      case Variable(v) => lastValue := VarRef(v);
      case Binary(op, l, r) =>
        VisitExpr(l);
        var lhs := lastValue;
        VisitExpr(r);
        var rhs := lastValue;
        Produce(BinaryToIr(op), [lhs, rhs]);
      case Unary(op, a) =>
        VisitExpr(a);
        Produce(UnaryToIr(op), [lastValue]);
      case LogicalAnd(l, r) =>
        VisitExpr(l);
        VisitAnd(r, lastValue);
      case LogicalOr(l, r) =>
        VisitExpr(l);
        VisitOr(r, lastValue, false);
      case NullCoalesce(l, r) =>
        VisitExpr(l);
        VisitOr(r, lastValue, true);
    }

    method VisitAnd(r: Source.Expr, lhs: Operand)
      requires currBlock < |blocks|
      modifies this`blocks, this`currBlock, this`nextId, this`lastValue
      ensures currBlock < |blocks| && (State(), lastValue) == AndRest(r, old(State()), lhs)
      decreases r, 2
    {
      var trueBlock := MakeBlock();
      var falseBlock := MakeBlock();
      var mergeBlock := MakeBlock();
      EndWithBranch(lhs, trueBlock, falseBlock);
      currBlock := trueBlock;
      assert State() == Split(old(State()), lhs).(cur := |old(blocks)|);
      VisitExpr(r);
      JoinAnd(falseBlock, mergeBlock);
    }

    /** The right operand's end, the false block and the merge block of `&&`. */
    method JoinAnd(falseBlock: nat, mergeBlock: nat)
      requires currBlock < |blocks| && mergeBlock < |blocks| && falseBlock + 1 == mergeBlock && falseBlock > 0
      modifies this`blocks, this`currBlock, this`nextId, this`lastValue
      ensures currBlock < |blocks|
      ensures (State(), lastValue) == AndMerge(old(State()), old(lastValue), falseBlock - 1)
    {
      var rhs := lastValue;
      var rhsEnd := currBlock;
      EndWithJump(mergeBlock);
      currBlock := falseBlock;
      Produce(ConstInt(0), []);
      var falseConst := lastValue;
      EndWithJump(mergeBlock);
      currBlock := mergeBlock;
      var result := MakeValue();
      Emit(Phi(result, [Incoming(rhsEnd, rhs), Incoming(falseBlock, falseConst)], None, None));
      lastValue := Value(result);
    }

    method VisitOr(r: Source.Expr, lhs: Operand, keepsLeft: bool)
      requires currBlock < |blocks|
      modifies this`blocks, this`currBlock, this`nextId, this`lastValue
      ensures currBlock < |blocks| && (State(), lastValue) == OrRest(r, old(State()), lhs, keepsLeft)
      decreases r, 2
    {
      var trueBlock, trueValue := StartOr(lhs, keepsLeft);
      VisitExpr(r);
      JoinOr(trueBlock, trueValue);
    }

    /** The branch and the true block of `||` or `??`. */
    method StartOr(lhs: Operand, keepsLeft: bool) returns (trueBlock: nat, trueValue: Operand)
      requires currBlock < |blocks|
      modifies this`blocks, this`currBlock, this`nextId, this`lastValue
      ensures State() == OrMiddle(old(State()), lhs, keepsLeft)
      ensures trueBlock == |old(blocks)| && trueValue == if keepsLeft then lhs else Value(old(nextId))
    {
      trueBlock := MakeBlock();
      var falseBlock := MakeBlock();
      var mergeBlock := MakeBlock();
      EndWithBranch(lhs, trueBlock, falseBlock);
      currBlock := trueBlock;
      assert State() == Split(old(State()), lhs).(cur := |old(blocks)|);
      trueValue := lhs;
      if !keepsLeft {
        Produce(ConstInt(1), []);
        trueValue := lastValue;
      }
      EndWithJump(mergeBlock);
      currBlock := falseBlock;
    }

    method JoinOr(trueBlock: nat, trueValue: Operand)
      requires currBlock < |blocks| && trueBlock + 2 < |blocks|
      modifies this`blocks, this`currBlock, this`nextId, this`lastValue
      ensures currBlock < |blocks|
      ensures (State(), lastValue) == OrMerge(old(State()), old(lastValue), trueValue, trueBlock)
    {
      var rhs := lastValue;
      var rhsEnd := currBlock;
      EndWithJump(trueBlock + 2);
      currBlock := trueBlock + 2;
      var result := MakeValue();
      Emit(Phi(result, [Incoming(trueBlock, trueValue), Incoming(rhsEnd, rhs)], None, None));
      lastValue := Value(result);
    }

    // ----- statements -----

    /** The last instruction of the current block is the producer of this value. */
    predicate LastMakes(id: Val)
      requires currBlock < |blocks|
      reads this
    {
      var code := blocks[currBlock].code;
      code != [] && Dst(code[|code| - 1]) == Some(id)
    }

    /** Connects a variable to the value it is given. The value's producer is the last instruction. */
    method BindLocalDefinition(sym: Hir.Var, value: Operand)
      requires currBlock < |blocks|
      requires value.Value? ==> LastMakes(value.id)
      modifies this`blocks
      ensures State() == BindLocal(old(State()), sym, value)
    {
      blocks := blocks[currBlock := blocks[currBlock].(defs := blocks[currBlock].defs + [sym])];
      match value
      case VarRef(_) => Emit(Bind(value, sym));
      case Value(rhs) =>
        var code := blocks[currBlock].code;
        var producer := code[|code| - 1];
        assert Dst(producer) == Some(rhs);
        blocks := blocks[currBlock := blocks[currBlock].(code := code[|code| - 1 := Tag(producer, sym)])];
    }

    method VisitLet(v: Hir.Var, e: Source.Expr)
      requires State().Ready()
      modifies this`blocks, this`currBlock, this`nextId, this`lastValue
      ensures currBlock < |blocks|
      ensures State() == var (s1, o) := LowerExpr(e, old(State())); BindLocal(s1, v, o)
    {
      hide LowerExpr;
      ExprProduces(e, State());
      VisitExpr(e);
      BindLocalDefinition(v, lastValue);
    }

    /** Lowers a statement; false stands for the error of a break or continue outside a loop. */
    method VisitStmt(s: Source.Stmt) returns (ok: bool)
      requires State().Ready() && LoopsIn(State())
      modifies this
      ensures ok <==> Accepted(s, old(loopStack) != [])
      ensures ok ==> currBlock < |blocks| && State() == LowerStmt(s, old(State()))
      decreases s, 1
    {
      hide LowerExpr, LowerIf, LowerWhile, LowerAll;
      match s
      case If(c, t, els) => ok := VisitIf(c, t, els);
      case While(c, b) => ok := VisitWhile(c, b);
      case Block(ss) => ok := VisitBlock(ss);
      case _ => ok := VisitSimple(s);
    }

    /** The statements that have no statements in them. */
    method VisitSimple(s: Source.Stmt) returns (ok: bool)
      requires State().Ready() && LoopsIn(State()) && !s.If? && !s.While? && !s.Block?
      modifies this
      ensures ok <==> Accepted(s, old(loopStack) != [])
      ensures ok ==> currBlock < |blocks| && State() == LowerStmt(s, old(State()))
    {
      ok := true;
      match s
      case Let(v, e) => VisitLet(v, e);
      case Assign(v, e) => VisitLet(v, e);
      case Print(e) =>
        VisitExpr(e);
        Emit(Hir.Print(lastValue));
      case ExprStmt(e) => VisitExpr(e);
      case Break =>
        if loopStack == [] { return false; }
        EndWithJump(loopStack[|loopStack| - 1].breakTarget);
      case Continue =>
        if loopStack == [] { return false; }
        EndWithJump(loopStack[|loopStack| - 1].continueTarget);
      case Return(e) =>
        VisitExpr(e);
        SetTerm(Hir.Return(Some(lastValue)));
    }

    /** Statements after one that ends the block are skipped. */
    method VisitBlock(ss: seq<Source.Stmt>) returns (ok: bool)
      requires State().Ready() && LoopsIn(State())
      modifies this
      ensures ok <==> AllAccepted(ss, old(loopStack) != [])
      ensures ok ==> currBlock < |blocks| && State() == LowerAll(ss, old(State()))
      decreases ss, 0
    {
      ghost var inLoop := loopStack != [];
      var i := 0;
      while i < |ss| && blocks[currBlock].term.None?
        invariant 0 <= i <= |ss| && currBlock < |blocks| && LoopsIn(State()) && loopStack == old(loopStack)
        invariant LowerAll(ss[i..], State()) == LowerAll(ss, old(State()))
        invariant AllAccepted(ss, inLoop) <==> State().Terminated() || AllAccepted(ss[i..], inLoop)
      {
        ghost var before := State();
        var done := VisitStmt(ss[i]);
        if !done { return false; }
        EndsIs(ss[i], before);
        assert ss[i..][1..] == ss[i + 1..] && ss[i..][0] == ss[i];
        i := i + 1;
      }
      return true;
    }

    method MakeIfBlocks(hasElse: bool) returns (thenBlock: nat, mergeBlock: nat, elseBlock: nat)
      modifies this`blocks
      ensures State() == IfBlocks(hasElse, old(State()))
      ensures thenBlock == |old(blocks)| && mergeBlock == thenBlock + 1
                && elseBlock == if hasElse then thenBlock + 2 else thenBlock + 1
    {
      thenBlock := MakeBlock();
      mergeBlock := MakeBlock();
      elseBlock := mergeBlock;
      if hasElse { elseBlock := MakeBlock(); }
    }

    /** The blocks and the condition of an `if`, and the branch into its then arm. */
    method StartIf(c: Source.Expr, hasElse: bool)
      requires currBlock < |blocks|
      modifies this`blocks, this`currBlock, this`nextId, this`lastValue
      ensures currBlock < |blocks| && State() == ThenStart(c, hasElse, old(State()))
    {
      var thenBlock, mergeBlock, elseBlock := MakeIfBlocks(hasElse);
      VisitExpr(c);
      EnterThen(hasElse, thenBlock, elseBlock);
    }

    /** Branches on the last value into the then arm. */
    method EnterThen(hasElse: bool, thenBlock: nat, elseBlock: nat)
      requires currBlock < |blocks| && thenBlock < |blocks| && elseBlock < |blocks|
      requires elseBlock == if hasElse then thenBlock + 2 else thenBlock + 1
      modifies this`blocks, this`currBlock
      ensures State() == ThenArm(hasElse, old(State()), lastValue, thenBlock)
    {
      BranchInto(thenBlock, elseBlock);
    }

    /** Branches on the last value and moves to the true target. */
    method BranchInto(t: nat, f: nat)
      requires currBlock < |blocks| && t < |blocks| && f < |blocks|
      modifies this`blocks, this`currBlock
      ensures State() == BranchTo(old(State()), lastValue, t, f).(cur := t)
    {
      EndWithBranch(lastValue, t, f);
      currBlock := t;
    }

    /** An arm or a loop body; unless it goes elsewhere, control goes to block m afterwards. */
    method VisitArm(t: Source.Stmt, m: nat) returns (ok: bool)
      requires State().Ready() && LoopsIn(State()) && m < |blocks|
      modifies this
      ensures ok <==> Accepted(t, old(loopStack) != [])
      ensures ok ==> currBlock < |blocks| && State() == LowerArm(t, old(State()), m)
      decreases t, 2
    {
      ok := VisitStmt(t);
      if ok { EndUnlessDone(m); }
    }

    /** The else arm, if there is one, of the `if` whose blocks start at n; the merge block is current next. */
    method VisitElse(els: Option<Source.Stmt>, n: nat) returns (ok: bool)
      requires currBlock < |blocks| && LoopsIn(State()) && (if els.Some? then n + 2 else n + 1) < |blocks|
      requires els.Some? ==> blocks[n + 2].term.None?
      modifies this
      ensures ok <==> (els.Some? ==> Accepted(els.value, old(loopStack) != []))
      ensures ok ==> currBlock < |blocks| && State() == LowerElse(els, old(State()), n)
      decreases els, 3
    {
      ok := true;
      if els.Some? {
        currBlock := n + 2;
        ok := VisitArm(els.value, n + 1);
        if !ok { return; }
      }
      currBlock := n + 1;
    }

    method VisitIf(c: Source.Expr, t: Source.Stmt, els: Option<Source.Stmt>) returns (ok: bool)
      requires State().Ready() && LoopsIn(State())
      modifies this
      ensures ok <==> Accepted(t, old(loopStack) != []) && (els.Some? ==> Accepted(els.value, old(loopStack) != []))
      ensures ok ==> currBlock < |blocks| && State() == LowerIf(c, t, els, old(State()))
      decreases Source.If(c, t, els), 0
    {
      hide LowerStmt, LowerExpr, LowerIf, ThenStart, LowerArm, LowerElse, Accepted, LoopsIn;
      ghost var st := State();
      var n := |blocks|;
      ThenIsOpen(c, els.Some?, st);
      StartIf(c, els.Some?);
      ok := VisitArm(t, n + 1);
      if !ok { return; }
      ElseIsOpen(c, t, els, st, State());
      ok := VisitElse(els, n);
      if ok { IfParts(c, t, els, st); }
    }

    method StartWhile(c: Source.Expr)
      requires currBlock < |blocks|
      modifies this`blocks, this`currBlock, this`nextId, this`lastValue, this`loopStack
      ensures currBlock < |blocks| && State() == WhileStart(c, old(State()))
    {
      var condBlock := MakeWhileBlocks();
      VisitExpr(c);
      EnterBody(condBlock);
    }

    /** Branches on the last value into the body of the loop whose blocks start at n; the loop is the innermost now. */
    method EnterBody(n: nat)
      requires currBlock < |blocks| && n + 2 < |blocks|
      modifies this`blocks, this`currBlock, this`loopStack
      ensures State() == WhileBody(old(State()), lastValue, n)
    {
      BranchInto(n + 1, n + 2);
      loopStack := loopStack + [Loop(n, n + 2)];
    }

    method MakeWhileBlocks() returns (condBlock: nat)
      requires currBlock < |blocks|
      modifies this`blocks, this`currBlock
      ensures currBlock < |blocks| && State() == WhileBlocks(old(State())) && condBlock == |old(blocks)|
    {
      condBlock := MakeBlock();
      var bodyBlock := MakeBlock();
      var exitBlock := MakeBlock();
      EndWithJump(condBlock);
      currBlock := condBlock;
    }

    method VisitWhile(c: Source.Expr, b: Source.Stmt) returns (ok: bool)
      requires State().Ready() && LoopsIn(State())
      modifies this
      ensures ok <==> Accepted(b, true)
      ensures ok ==> currBlock < |blocks| && State() == LowerWhile(c, b, old(State()))
      decreases Source.While(c, b), 0
    {
      hide LowerStmt, LowerExpr, LowerWhile, WhileStart, LowerArm, Accepted;
      ghost var st := State();
      var n := |blocks|;
      BodyIsOpen(c, st);
      StartWhile(c);
      assert loopStack[..|loopStack| - 1] == st.loops;
      ok := VisitBody(b, n);
      if ok { WhileIsArm(c, b, st); }
    }

    /** The body of the innermost loop, whose blocks start at n; the exit block is current next. */
    method VisitBody(b: Source.Stmt, n: nat) returns (ok: bool)
      requires State().Ready() && LoopsIn(State()) && n + 2 < |blocks| && loopStack != []
      modifies this
      ensures ok <==> Accepted(b, true)
      ensures ok ==> currBlock < |blocks|
      ensures ok ==>
        State() == LowerArm(b, old(State()), n).(cur := n + 2, loops := old(loopStack)[..|old(loopStack)| - 1])
      decreases b, 3
    {
      ok := VisitArm(b, n);
      if !ok { return; }
      loopStack := loopStack[..|loopStack| - 1];
      currBlock := n + 2;
    }

    // ----- functions -----

    /** Parameters are values of their own, defined in the entry block. */
    method DefineParams(params: seq<Hir.Var>)
      requires State() == Builder([EMPTY], 0, 0, [])
      modifies this
      ensures State() == LowerParams(params, |params|)
    {
      var i: nat := 0;
      while i < |params|
        invariant i <= |params| && State() == LowerParams(params, i)
      {
        Produce(Param(i), []);
        MarkParam(params[i]);
        i := i + 1;
      }
    }

    method MarkParam(sym: Hir.Var)
      requires currBlock < |blocks| && blocks[currBlock].code != []
      modifies this`blocks
      ensures State() == RecordDef(TagLast(old(State()), sym), sym)
    {
      var code := blocks[currBlock].code;
      blocks := blocks[currBlock := blocks[currBlock].(code := code[|code| - 1 := Tag(code[|code| - 1], sym)])];
      blocks := blocks[currBlock := blocks[currBlock].(defs := blocks[currBlock].defs + [sym])];
    }
  }

  lemma ThenIsOpen(c: Source.Expr, hasElse: bool, st: Builder)
    requires st.Ready() && LoopsIn(st)
    ensures ThenStart(c, hasElse, st).Ready() && LoopsIn(ThenStart(c, hasElse, st))
  {
    ThenStartGrows(c, hasElse, st);
  }

  lemma ElseIsOpen(c: Source.Expr, t: Source.Stmt, els: Option<Source.Stmt>, st: Builder, s4: Builder)
    requires st.Ready() && LoopsIn(st)
    requires LoopsIn(ThenStart(c, els.Some?, st)) && s4 == LowerArm(t, ThenStart(c, els.Some?, st), |st.blocks| + 1)
    ensures LoopsIn(s4) && (if els.Some? then |st.blocks| + 2 else |st.blocks| + 1) < |s4.blocks|
    ensures els.Some? ==> s4.blocks[|st.blocks| + 2].term.None?
  {
    var s := ThenGrows(c, t, els, st);
  }

  lemma BodyIsOpen(c: Source.Expr, st: Builder)
    requires st.Ready() && LoopsIn(st)
    ensures WhileStart(c, st).Ready() && LoopsIn(WhileStart(c, st))
  {
    WhileStartGrows(c, st);
  }

  lemma WhileIsArm(c: Source.Expr, b: Source.Stmt, st: Builder)
    requires st.cur < |st.blocks| && LoopsIn(st)
    ensures LowerWhile(c, b, st)
              == LowerArm(b, WhileStart(c, st), |st.blocks|).(cur := |st.blocks| + 2, loops := st.loops)
  {
  }

  /** Lowers a whole function; None stands for the error of a break or continue outside a loop. */
  method LowerFunctionExpr(fn: Source.Function) returns (r: Option<Func>)
    ensures r == if Accepted(fn.body, false) then Some(LowerFunction(fn)) else None
  {
    var b := new IRBuilder();
    b.DefineParams(fn.params);
    ParamsOpen(fn.params, |fn.params|);
    var ok := b.VisitStmt(fn.body);
    if !ok { return None; }
    return Some(Finished(b.State()));
  }

  lemma {:induction false} ParamsOpen(params: seq<Hir.Var>, n: nat)
    requires n <= |params|
    ensures LowerParams(params, n).Ready()
  {
    if n > 0 { ParamsOpen(params, n - 1); }
  }
}
