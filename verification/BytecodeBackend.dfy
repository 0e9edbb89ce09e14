/** Compiling a function for the virtual machine, and what every run of the code does. */
module BytecodeBackend {
  import opened Wrappers
  import opened VirtualMachine
  import opened BytecodeLayout
  import opened BytecodeCompiler
  import opened BytecodeCorrect
  import opened BytecodeHeights
  import opened VmSource
  import Source

  /** The body, and a return without a value for a body that falls off its end. */
  ghost predicate IsFunctionCode(c: Chunk, body: Source.Stmt) {
    && StmtAt(c, 0, body, -1, -1) && IsAt(c, StmtSize(body), ReturnVoid, -1) && |c.code| == StmtSize(body) + 1
  }

  /** How a call ends, seen from the caller: its stack has the result in place of the function that was called. */
  function EndOf(r: Flow, below: seq<Value>): State
    requires below != [] && !r.OutOfFuel?
  {
    var caller := below[..|below| - 1];
    match r
    case Returned(x, o) => State.Returned(caller + [x], o)
    case Trapped(o) => Failed(o)
    case _ => State.Returned(caller + [Garbage], r.out)
  }

  /** After n instructions the machine has ended as the source did, or, the source being out of fuel, is still
      going and has printed the same. */
  ghost predicate Follows(r: Flow, below: seq<Value>, s: State, n: nat, fuel: nat)
    requires below != []
  {
    if r.OutOfFuel? then n >= fuel && s.Going? && s.out == r.out else s == EndOf(r, below)
  }

  /** A body whose breaks and continues are all in loops does not end with one. */
  lemma {:induction false} NoEscape(s: Source.Stmt, vars: Slots, out: seq<Value>, fuel: nat)
    requires Compiles(s, false)
    ensures !Exec(s, vars, out, fuel).Broke? && !Exec(s, vars, out, fuel).Continued?
    decreases fuel, s, 0
  {
    match s
    case If(_, t, els) =>
      NoEscape(t, vars, out, fuel);
      if els.Some? { NoEscape(els.value, vars, out, fuel); }
    case While(c, b) =>
      if fuel > 0 {
        var r := Exec(b, vars, out, fuel - 1);
        if r.Next? || r.Continued? { NoEscape(s, r.vars, r.out, fuel - 1); }
      }
    case Block(ss) => AllNoEscape(ss, vars, out, fuel);
    case _ =>
  }

  lemma {:induction false} AllNoEscape(ss: seq<Source.Stmt>, vars: Slots, out: seq<Value>, fuel: nat)
    requires forall i :: 0 <= i < |ss| ==> Compiles(ss[i], false)
    ensures !ExecAll(ss, vars, out, fuel).Broke? && !ExecAll(ss, vars, out, fuel).Continued?
    decreases fuel, ss, 1
  {
    if ss != [] {
      NoEscape(ss[0], vars, out, fuel);
      var r := Exec(ss[0], vars, out, fuel);
      if r.Next? { AllNoEscape(ss[1..], r.vars, r.out, fuel); }
    }
  }

  /** Running the code of a function follows its body, whatever is on the stack below and in the frame. */
  lemma CodeFollows(c: Chunk, body: Source.Stmt, below: seq<Value>, vars: Slots, fuel: nat) returns (n: nat)
    requires IsFunctionCode(c, body) && Compiles(body, false) && below != [] && Fits(body, |vars|)
    ensures Follows(Exec(body, vars, [], fuel), below, Run(c, |below|, Going(0, below + vars, []), n), n, fuel)
  {
    hide StmtAt, Exec, Run, StmtSize;
    var r := Exec(body, vars, [], fuel);
    n := StmtRuns(c, below, 0, body, vars, [], -1, -1, fuel);
    NoEscape(body, vars, [], fuel);
    if r.Next? {
      ReturnStep(c, below, Going(0, below + vars, []), n, StmtSize(body), r.vars, r.out);
      n := n + 1;
    }
  }

  lemma ReturnStep(c: Chunk, below: seq<Value>, s: State, k: nat, p: nat, vars: Slots, out: seq<Value>)
    requires below != [] && Run(c, |below|, s, k) == Going(p, below + vars, out) && IsAt(c, p, ReturnVoid, -1)
    ensures Run(c, |below|, s, k + 1) == State.Returned(below[..|below| - 1] + [Garbage], out)
  {
    assert (below + vars)[..|below| - 1] == below[..|below| - 1];
  }

  /** And the other way: when the machine has stopped, the body has ended that way. */
  lemma CodeEnds(c: Chunk, body: Source.Stmt, below: seq<Value>, vars: Slots, n: nat)
    requires IsFunctionCode(c, body) && Compiles(body, false) && below != [] && Fits(body, |vars|)
    requires !Run(c, |below|, Going(0, below + vars, []), n).Going?
    ensures var r := Exec(body, vars, [], n);
            !r.OutOfFuel? && Run(c, |below|, Going(0, below + vars, []), n) == EndOf(r, below)
  {
    hide StmtAt, Exec, StmtSize, Fits, Compiles;
    var s := Going(0, below + vars, []);
    var m := CodeFollows(c, body, below, vars, n);
    if m <= n {
      if !Run(c, |below|, s, m).Going? { StoppedStays(c, |below|, s, m, n); }
    } else {
      StoppedStays(c, |below|, s, n, m);
    }
  }

  /** In every run of the code the stack is as high as the position says, and the machine never fails but for
      the error of an operator. */
  lemma CodeIsSafe(c: Chunk, body: Source.Stmt, below: seq<Value>, vars: Slots, n: nat)
    requires IsFunctionCode(c, body) && Compiles(body, false) && below != [] && Fits(body, |vars|)
    ensures var s := Run(c, |below|, Going(0, below + vars, []), n);
            && InStep(c, StmtHeights(body) + [0], |below|, |vars|, s)
            && (s.Going? && Step(c, |below|, s).Failed? ==> OperatorFails(c, s))
  {
    hide StmtAt, Fits, Compiles, StmtHeights, StmtSize;
    var h := StmtHeights(body) + [0];
    assert Stretch(h, 0, StmtHeights(body)) by { assert h[0..|StmtHeights(body)|] == StmtHeights(body); }
    assert HighAt(h, StmtSize(body), 0);
    StmtBalanced(c, h, |vars|, 0, body, false, -1, -1);
    assert Balanced(c, h, |vars|, StmtSize(body));
    StmtStarts(body, [0]);
    RunKeeps(c, h, |below|, |vars|, Going(0, below + vars, []), n);
    StepKeeps(c, h, |below|, |vars|, Run(c, |below|, Going(0, below + vars, []), n));
  }

  /** What a call does for all stacks below, all contents of the frame and any number of instructions. */
  ghost predicate Behaves(c: Chunk, body: Source.Stmt, below: seq<Value>, vars: Slots)
    requires below != []
  {
    && (forall fuel: nat :: KeepsUp(c, body, below, vars, fuel))
    && (forall n: nat :: EndsThus(c, body, below, vars, n))
  }

  ghost predicate KeepsUp(c: Chunk, body: Source.Stmt, below: seq<Value>, vars: Slots, fuel: nat)
    requires below != []
  {
    exists n: nat ::
      Follows(Exec(body, vars, [], fuel), below, Run(c, |below|, Going(0, below + vars, []), n), n, fuel)
  }

  ghost predicate EndsThus(c: Chunk, body: Source.Stmt, below: seq<Value>, vars: Slots, n: nat)
    requires below != []
  {
    var s := Run(c, |below|, Going(0, below + vars, []), n);
    var r := Exec(body, vars, [], n);
    if s.Going? then Step(c, |below|, s).Failed? ==> OperatorFails(c, s)
    else !r.OutOfFuel? && s == EndOf(r, below)
  }

  /** None stands for the compiler's errors: `??`, and break or continue outside a loop. */
  method CompileFunction(body: Source.Stmt) returns (r: Option<Chunk>)
    ensures r.Some? <==> Compiles(body, false)
    ensures r.Some? ==> IsFunctionCode(r.value, body)
    ensures r.Some? ==> forall i, j :: 0 <= i < j < |r.value.constants| ==> r.value.constants[i] != r.value.constants[j]
    ensures r.Some? ==> forall below, vars | below != [] && Fits(body, |vars|) :: Behaves(r.value, body, below, vars)
  {
    var compiler := new Compiler();
    var ok := compiler.VisitStmt(body);
    if !ok { return None; }
    ghost var c1 := compiler.Made();
    compiler.Emit(ReturnVoid);
    var c := compiler.Made();
    EmitExtends(c1, c, ReturnVoid, -1);
    KeepsStmt(c1, c, {}, 0, body, -1, -1);
    forall below: seq<Value>, vars: Slots | below != [] && Fits(body, |vars|) ensures Behaves(c, body, below, vars) {
      CodeBehaves(c, body, below, vars);
    }
    r := Some(c);
  }

  lemma CodeBehaves(c: Chunk, body: Source.Stmt, below: seq<Value>, vars: Slots)
    requires IsFunctionCode(c, body) && Compiles(body, false) && below != [] && Fits(body, |vars|)
    ensures Behaves(c, body, below, vars)
  {
    forall fuel: nat ensures KeepsUp(c, body, below, vars, fuel) {
      var n := CodeFollows(c, body, below, vars, fuel);
    }
    forall n: nat ensures EndsThus(c, body, below, vars, n) {
      CodeIsSafe(c, body, below, vars, n);
      if !Run(c, |below|, Going(0, below + vars, []), n).Going? { CodeEnds(c, body, below, vars, n); }
    }
  }
}
