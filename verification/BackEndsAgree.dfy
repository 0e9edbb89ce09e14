/** Calls of one function in both back ends. The machine's calls pass their arguments in reverse. Where parameter types
    read the same backwards it does what native code does on the reversed arguments, unless it fails, and it is
    decided when it does; other calls put numbers where booleans should be. */
module BackEndsAgree {
  import opened Wrappers
  import opened Scoping
  import opened StatementsAgree
  import opened ValueTypes
  import opened VirtualMachine
  import opened VmSource
  import BytecodeBackend
  import BytecodeCompiler
  import Hir
  import opened LoweringReady
  import Mir
  import NativeCompiler
  import Source

  // ----- the frame of a call -----

  function Reverse<T>(s: seq<T>): (r: seq<T>)
    ensures |r| == |s|
  {
    seq(|s|, i requires 0 <= i < |s| => s[|s| - 1 - i])
  }

  /** The stack when the arguments of a call have been evaluated: the last one first. */
  function Pushed(stack: seq<Value>, args: seq<Value>): seq<Value>
    decreases |args|
  {
    if args == [] then stack else Pushed(stack + [args[|args| - 1]], args[..|args| - 1])
  }

  lemma {:induction false} PushedIsReverse(stack: seq<Value>, args: seq<Value>)
    ensures Pushed(stack, args) == stack + Reverse(args)
    decreases |args|
  {
    if args != [] {
      var last := args[|args| - 1];
      PushedIsReverse(stack + [last], args[..|args| - 1]);
      assert Reverse(args) == [last] + Reverse(args[..|args| - 1]);
    }
  }

  /** The callee finds its last argument in its first slot. */
  lemma CallFrame(below: seq<Value>, args: seq<Value>, size: nat)
    requires |args| <= size
    ensures Pushed(below, args) == below + Reverse(args)
    ensures EnterFrame(Pushed(below, args), |args|, size) == (|below|, below + Resize(Reverse(args), size))
    ensures forall i: nat :: i < size ==>
              Resize(Reverse(args), size)[i] == if i < |args| then args[|args| - 1 - i] else Garbage
  {
    PushedIsReverse(below, args);
    ResizeAbove(below, Reverse(args), size);
  }

  lemma ResizeAbove(below: seq<Value>, top: seq<Value>, size: nat)
    requires |top| <= size
    ensures Resize(below + top, |below| + size) == below + Resize(top, size)
  {
    if |top| < size {
      assert (below + top) + Unset(size - |top|) == below + (top + Unset(size - |top|));
    } else {
      assert (below + top)[..|below| + size] == below + top[..size];
    }
  }

  /** The machine at the start of a call with these arguments. */
  function Called(below: seq<Value>, args: seq<Value>, size: nat): State
    requires |args| <= size
  {
    PushedIsReverse(below, args);
    Going(0, EnterFrame(Pushed(below, args), |args|, size).1, [])
  }

  // ----- one call -----

  /** Parameters have the first slots in order, and the machine's values there match native code's words. */
  ghost predicate Callable(fn: Source.Function, types: Types, slots: seq<Value>, words: seq<int>, size: nat) {
    && |slots| == |words| == |fn.params| <= size
    && forall i: nat :: i < |fn.params| ==>
         fn.params[i] == i && ArgumentFits(types, slots, words, i)
  }

  ghost predicate ArgumentFits(types: Types, slots: seq<Value>, words: seq<int>, i: nat) {
    && i < |slots| && i < |words| && i in types
    && IsWord(slots[i]) && Matches(slots[i], words[i], types[i])
  }

  /** A call whose arguments, in order, are of the parameters' types, of a well-typed function, with a frame that has
      a slot for every variable: what the passes before code generation accept. */
  ghost predicate FineCall(fn: Source.Function, types: Types, slots: seq<Value>, words: seq<int>, size: nat) {
    WellScopedFunction(fn) && Typed(fn.body, types) && Callable(fn, types, slots, words, size) && Fits(fn.body, size)
  }

  lemma {:induction false} ArgumentsAgree(fn: Source.Function, types: Types, slots: seq<Value>, words: seq<int>,
                                          size: nat, n: nat)
    requires Callable(fn, types, slots, words, size) && n <= |fn.params|
    ensures Agrees(Resize(slots, size), Source.Arguments(fn.params, words, n), types, Names(fn.params, n))
  {
    if n > 0 {
      assert ArgumentFits(types, slots, words, n - 1);
      ArgumentsAgree(fn, types, slots, words, size, n - 1);
      var m := Source.Arguments(fn.params, words, n);
      forall v | v in Names(fn.params, n) ensures SlotAgrees(Resize(slots, size), m, types, v) {
        if v != n - 1 {
          assert fn.params[v] in Names(fn.params, n - 1);
          assert SlotAgrees(Resize(slots, size), Source.Arguments(fn.params, words, n - 1), types, v);
        }
      }
    }
  }

  /** Every expression evaluated in a native call with these arguments is total. */
  predicate TotalCall(fn: Source.Function, args: seq<int>, fuel: nat) {
    TotalRun(fn.body, Source.Arguments(fn.params, args, |fn.params|), args, fuel)
  }

  /** One call, run for the same fuel by both meanings. */
  lemma CallsAgree(fn: Source.Function, types: Types, slots: seq<Value>, words: seq<int>, size: nat, fuel: nat)
    requires FineCall(fn, types, slots, words, size)
    ensures var names := Names(fn.params, |fn.params|);
            FlowsAgree(VmSource.Exec(fn.body, Resize(slots, size), [], fuel), Source.Call(fn, words, fuel), types,
                       names, Check(fn.body, Scope(names, names)).value.visible, Unguarded(fn.body))
    ensures VmSource.Exec(fn.body, Resize(slots, size), [], fuel).Trapped? <==> !TotalCall(fn, words, fuel)
  {
    var names := Names(fn.params, |fn.params|);
    var m := Source.Arguments(fn.params, words, |fn.params|);
    ArgumentsAgree(fn, types, slots, words, size, |fn.params|);
    assert EraseAll([]) == [];
    StmtAgrees(fn.body, types, Scope(names, names), Resize(slots, size), m, [], words, fuel, Unguarded(fn.body));
    FailsIff(fn.body, types, Scope(names, names), Resize(slots, size), m, [], words, fuel);
  }

  /** Parameters have the types they have when read backwards. */
  ghost predicate TypesReadBackwards(fn: Source.Function, types: Types) {
    forall i: nat :: i < |fn.params| ==> SameTypeBackwards(types, |fn.params|, i)
  }

  predicate SameTypeBackwards(types: Types, n: nat, i: nat) {
    i < n && i in types && n - 1 - i in types && types[i] == types[n - 1 - i]
  }

  lemma ReversedIsFine(fn: Source.Function, types: Types, args: seq<Value>, words: seq<int>, size: nat)
    requires FineCall(fn, types, args, words, size) && TypesReadBackwards(fn, types)
    ensures FineCall(fn, types, Reverse(args), Reverse(words), size)
  {
    hide WellScopedFunction, Typed, Fits, Matches, IsWord;
    forall i: nat | i < |args| ensures fn.params[i] == i && ArgumentFits(types, Reverse(args), Reverse(words), i) {
      assert ArgumentFits(types, args, words, i) && ArgumentFits(types, args, words, |args| - 1 - i);
      assert SameTypeBackwards(types, |args|, i);
    }
  }

  // ----- compiled calls -----

  /** How a call ends: the value it returns, if any, and what it printed; or an error. */
  ghost predicate SameEnd(s: VirtualMachine.State, t: Mir.State) {
    && !s.Going? && t.Stopped? && AllWords(s.out) && t.out == EraseAll(s.out)
    && if s.Failed? then t.outcome == Hir.Trapped
       else s.stack != [] && t.outcome.Returned? && SameResult(s.stack[|s.stack| - 1], t.outcome.value)
  }

  /** Functions that return nothing leave garbage. */
  ghost predicate SameResult(x: Value, y: Option<int>) {
    if x.Garbage? then y == None else IsWord(x) && y == Some(Erase(x))
  }

  /** The machine from s, and native code called with args. When the machine returns, native code stops with the
      same result and output. When native code stops, the machine has done the same, or it has failed and printed a
      part of what native code prints. The machine fails exactly when some expression evaluated natively is not
      total; without a division that native code may skip, it fails exactly when native code does. */
  ghost predicate SameCall(fn: Source.Function, c: Chunk, m: Mir.Func, base: nat, s: State, args: seq<int>) {
    && (forall n: nat :: VmStopsToo(c, m, base, s, args, n, Unguarded(fn.body)))
    && (forall k: nat :: NativeStopsToo(c, m, base, s, args, k, Unguarded(fn.body)))
    && ((exists n: nat :: VirtualMachine.Run(c, base, s, n).Failed?)
        <==> (exists fuel: nat :: !TotalCall(fn, args, fuel)))
  }

  ghost predicate VmStopsToo(c: Chunk, m: Mir.Func, base: nat, s: State, args: seq<int>, n: nat, exact: bool) {
    var t := VirtualMachine.Run(c, base, s, n);
    t.Returned? || (exact && t.Failed?) ==> exists k: nat :: SameEnd(t, Mir.Run(m, args, k))
  }

  ghost predicate NativeStopsToo(c: Chunk, m: Mir.Func, base: nat, s: State, args: seq<int>, k: nat, exact: bool) {
    Mir.Run(m, args, k).Stopped? ==>
      exists n: nat ::
        var t := VirtualMachine.Run(c, base, s, n);
        SameEnd(t, Mir.Run(m, args, k)) || (t.Failed? && !exact && EraseAll(t.out) <= Mir.Run(m, args, k).out)
  }

  /** A call of a typed function, with native code's words for the machine's arguments: when the parameters' types
      read the same backwards, the machine does what native code does on the words in reverse. */
  lemma BackEndsAgree(fn: Source.Function, types: Types, c: Chunk, m: Mir.Func, below: seq<Value>, args: seq<Value>,
                      words: seq<int>, size: nat)
    requires FineCall(fn, types, args, words, size) && TypesReadBackwards(fn, types) && below != []
    requires BytecodeBackend.IsFunctionCode(c, fn.body) && BytecodeCompiler.Compiles(fn.body, false)
    requires NativeCompiler.SameBehaviour(fn, m, Reverse(words))
    ensures SameCall(fn, c, m, |below|, Called(below, args, size), Reverse(words))
  {
    CallFrame(below, args, size);
    ReversedIsFine(fn, types, args, words, size);
    FrameAgrees(fn, types, c, m, below, Reverse(args), Reverse(words), size);
  }

  lemma FrameAgrees(fn: Source.Function, types: Types, c: Chunk, m: Mir.Func, below: seq<Value>, slots: seq<Value>,
                    words: seq<int>, size: nat)
    requires FineCall(fn, types, slots, words, size) && below != []
    requires BytecodeBackend.IsFunctionCode(c, fn.body) && BytecodeCompiler.Compiles(fn.body, false)
    requires NativeCompiler.SameBehaviour(fn, m, words)
    ensures SameCall(fn, c, m, |below|, Going(0, below + Resize(slots, size), []), words)
  {
    var base, s := |below|, Going(0, below + Resize(slots, size), []);
    var exact := Unguarded(fn.body);
    forall n: nat ensures VmStopsToo(c, m, base, s, words, n, exact) {
      var t := VirtualMachine.Run(c, base, s, n);
      if t.Returned? || (exact && t.Failed?) {
        var k := NativeCatchesUp(fn, types, c, m, below, slots, words, size, n);
      }
    }
    forall k: nat ensures NativeStopsToo(c, m, base, s, words, k, exact) {
      if Mir.Run(m, words, k).Stopped? { var n := MachineCatchesUp(fn, types, c, m, below, slots, words, size, k); }
    }
    FailsTogether(fn, types, c, below, slots, words, size);
  }

  lemma FailsTogether(fn: Source.Function, types: Types, c: Chunk, below: seq<Value>, slots: seq<Value>,
                      words: seq<int>, size: nat)
    requires FineCall(fn, types, slots, words, size) && below != []
    requires BytecodeBackend.IsFunctionCode(c, fn.body) && BytecodeCompiler.Compiles(fn.body, false)
    ensures (exists n: nat :: VirtualMachine.Run(c, |below|, Going(0, below + Resize(slots, size), []), n).Failed?)
       <==> (exists fuel: nat :: !TotalCall(fn, words, fuel))
  {
    var s := Going(0, below + Resize(slots, size), []);
    if n: nat :| VirtualMachine.Run(c, |below|, s, n).Failed? {
      BytecodeBackend.CodeEnds(c, fn.body, below, Resize(slots, size), n);
      CallsAgree(fn, types, slots, words, size, n);
    }
    if fuel: nat :| !TotalCall(fn, words, fuel) {
      CallsAgree(fn, types, slots, words, size, fuel);
      var n := BytecodeBackend.CodeFollows(c, fn.body, below, Resize(slots, size), fuel);
      assert VirtualMachine.Run(c, |below|, s, n).Failed?;
    }
  }

  lemma NativeCatchesUp(fn: Source.Function, types: Types, c: Chunk, m: Mir.Func, below: seq<Value>,
                        slots: seq<Value>, words: seq<int>, size: nat, n: nat) returns (k: nat)
    requires FineCall(fn, types, slots, words, size) && below != []
    requires BytecodeBackend.IsFunctionCode(c, fn.body) && BytecodeCompiler.Compiles(fn.body, false)
    requires NativeCompiler.SameBehaviour(fn, m, words)
    requires var t := VirtualMachine.Run(c, |below|, Going(0, below + Resize(slots, size), []), n);
             t.Returned? || (Unguarded(fn.body) && t.Failed?)
    ensures var t := VirtualMachine.Run(c, |below|, Going(0, below + Resize(slots, size), []), n);
            SameEnd(t, Mir.Run(m, words, k))
  {
    var vars := Resize(slots, size);
    var r := VmSource.Exec(fn.body, vars, [], n);
    BytecodeBackend.CodeEnds(c, fn.body, below, vars, n);
    CallsAgree(fn, types, slots, words, size, n);
    BytecodeBackend.NoEscape(fn.body, vars, [], n);
    k := NativeEnds(fn, m, words, n);
    var names := Names(fn.params, |fn.params|);
    EndsAgree(r, Source.Call(fn, words, n), types, names, Check(fn.body, Scope(names, names)).value.visible,
              below, BytecodeBackend.EndOf(r, below), Mir.Run(m, words, k), Unguarded(fn.body));
  }

  lemma MachineCatchesUp(fn: Source.Function, types: Types, c: Chunk, m: Mir.Func, below: seq<Value>,
                         slots: seq<Value>, words: seq<int>, size: nat, k: nat) returns (n: nat)
    requires FineCall(fn, types, slots, words, size) && below != []
    requires BytecodeBackend.IsFunctionCode(c, fn.body) && BytecodeCompiler.Compiles(fn.body, false)
    requires NativeCompiler.SameBehaviour(fn, m, words) && Mir.Run(m, words, k).Stopped?
    ensures var s, t := VirtualMachine.Run(c, |below|, Going(0, below + Resize(slots, size), []), n),
                        Mir.Run(m, words, k);
            SameEnd(s, t) || (s.Failed? && !Unguarded(fn.body) && EraseAll(s.out) <= t.out)
  {
    var vars := Resize(slots, size);
    var r := VmSource.Exec(fn.body, vars, [], k);
    assert NativeCompiler.EndsThus(fn, words, k, Mir.Run(m, words, k));
    CallsAgree(fn, types, slots, words, size, k);
    n := BytecodeBackend.CodeFollows(c, fn.body, below, vars, k);
    BytecodeBackend.NoEscape(fn.body, vars, [], k);
    var names := Names(fn.params, |fn.params|);
    if !r.Trapped? || Unguarded(fn.body) {
      EndsAgree(r, Source.Call(fn, words, k), types, names,
                Check(fn.body, Scope(names, names)).value.visible, below, BytecodeBackend.EndOf(r, below),
                Mir.Run(m, words, k), Unguarded(fn.body));
    }
  }

  lemma NativeEnds(fn: Source.Function, m: Mir.Func, args: seq<int>, fuel: nat) returns (k: nat)
    requires NativeCompiler.SameBehaviour(fn, m, args) && !Source.Call(fn, args, fuel).OutOfFuel?
    ensures Mir.Run(m, args, k) == NativeCompiler.MachineEnd(Source.Call(fn, args, fuel))
  {
    assert NativeCompiler.KeepsUp(fn, m, args, fuel);
    k :| NativeCompiler.MachineFollows(Source.Call(fn, args, fuel), Mir.Run(m, args, k), k, fuel);
  }

  lemma EndsAgree(r: Flow, q: Source.Flow, types: Types, visible: set<Source.Var>, after: set<Source.Var>,
                  below: seq<Value>, s: VirtualMachine.State, t: Mir.State, exact: bool)
    requires below != [] && !r.OutOfFuel? && !r.Broke? && !r.Continued? && !q.OutOfFuel?
    requires s == BytecodeBackend.EndOf(r, below) && (s.Returned? || exact) && t == NativeCompiler.MachineEnd(q)
    requires FlowsAgree(r, q, types, visible, after, exact)
    ensures SameEnd(s, t)
  {
  }

  /** Compiles a function both ways: what every call then does in the machine, and, for accepted calls of parameters
      whose types read the same backwards, in both. */
  method CompileBoth(fn: Source.Function) returns (c: Option<Chunk>, m: Option<Mir.Func>)
    requires WellScopedFunction(fn)
    ensures c.Some? <==> BytecodeCompiler.Compiles(fn.body, false)
    ensures m.Some? <==> MergesLive(fn.body) && !UsesNot(fn.body)
    ensures c.Some? ==>
      forall below, args, size: nat | below != [] && |args| <= size && Fits(fn.body, size) ::
        BytecodeBackend.Behaves(c.value, fn.body, below, Resize(Reverse(args), size))
    ensures c.Some? && m.Some? ==>
      forall types, below: seq<Value>, args, words, size
        | below != [] && FineCall(fn, types, args, words, size) && TypesReadBackwards(fn, types) ::
        SameCall(fn, c.value, m.value, |below|, Called(below, args, size), Reverse(words))
  {
    c := BytecodeBackend.CompileFunction(fn.body);
    m := NativeCompiler.Compile(fn);
    if c.Some? && m.Some? {
      forall types, below: seq<Value>, args, words, size
        | below != [] && FineCall(fn, types, args, words, size) && TypesReadBackwards(fn, types)
        ensures SameCall(fn, c.value, m.value, |below|, Called(below, args, size), Reverse(words))
      {
        BackEndsAgree(fn, types, c.value, m.value, below, args, words, size);
      }
    }
  }

  // ----- the order of arguments -----

  /** What the machine does with these slots is what native code does with these words, and the machine fails exactly
      when some expression evaluated natively is not total. */
  ghost predicate CallAgrees(fn: Source.Function, slots: seq<Value>, words: seq<int>, size: nat) {
    forall fuel: nat :: RunAgrees(fn, slots, words, size, fuel)
  }

  ghost predicate RunAgrees(fn: Source.Function, slots: seq<Value>, words: seq<int>, size: nat, fuel: nat) {
    var r := VmSource.Exec(fn.body, Resize(slots, size), [], fuel);
    EndsAlike(r, Source.Call(fn, words, fuel)) && FailsAlike(r, fn, words, fuel)
  }

  ghost predicate EndsAlike(r: Flow, q: Source.Flow) {
    AllWords(r.out) &&
    match r
    case Next(_, o) => q.Next? && q.out == EraseAll(o)
    case Broke(_, o) => q.Broke? && q.out == EraseAll(o)
    case Continued(_, o) => q.Continued? && q.out == EraseAll(o)
    case Returned(x, o) => IsWord(x) && q == Source.Returned(Erase(x), EraseAll(o))
    case Trapped(o) => EraseAll(o) <= q.out
    case OutOfFuel(o) => q == Source.OutOfFuel(EraseAll(o))
  }

  predicate FailsAlike(r: Flow, fn: Source.Function, words: seq<int>, fuel: nat) {
    r.Trapped? <==> !TotalCall(fn, words, fuel)
  }

  lemma FineAgrees(fn: Source.Function, types: Types, slots: seq<Value>, words: seq<int>, size: nat)
    requires FineCall(fn, types, slots, words, size)
    ensures CallAgrees(fn, slots, words, size)
  {
    forall fuel: nat ensures RunAgrees(fn, slots, words, size, fuel) {
      CallsAgree(fn, types, slots, words, size, fuel);
    }
  }

  /** Whether an argument is a number or a boolean reads the same backwards. */
  predicate KindsReadBackwards(args: seq<Value>) {
    forall i: nat :: i < |args| ==> (args[i].Int? <==> Reverse(args)[i].Int?)
  }

  /** All accepted calls with args do in the machine what they do natively exactly when args read the same
      backwards, as a single argument does. */
  lemma AgreeInOrderIff(args: seq<Value>, size: nat)
    requires |args| <= size && AllWords(args)
    ensures (forall fn, types | FineCall(fn, types, args, EraseAll(args), size) ::
               CallAgrees(fn, Reverse(args), EraseAll(args), size))
         <==> Reverse(args) == args
  {
    if Reverse(args) == args {
      forall fn, types | FineCall(fn, types, args, EraseAll(args), size)
        ensures CallAgrees(fn, Reverse(args), EraseAll(args), size)
      {
        FineAgrees(fn, types, args, EraseAll(args), size);
      }
    } else if KindsReadBackwards(args) {
      var i: nat :| i < |args| && Reverse(args)[i] != args[i];
      PickTellsApart(args, size, i);
    } else {
      var j := NumberForBoolean(args);
      IncrementTellsApart(args, EraseAll(args), size, j);
    }
  }

  /** All accepted calls with args do in the machine what they do natively on args in reverse exactly when numbers and
      booleans are where they are read backwards. */
  lemma AgreeReversedIff(args: seq<Value>, size: nat)
    requires |args| <= size && AllWords(args)
    ensures (forall fn, types | FineCall(fn, types, args, EraseAll(args), size) ::
               CallAgrees(fn, Reverse(args), EraseAll(Reverse(args)), size))
         <==> KindsReadBackwards(args)
  {
    if KindsReadBackwards(args) {
      forall fn, types | FineCall(fn, types, args, EraseAll(args), size)
        ensures CallAgrees(fn, Reverse(args), EraseAll(Reverse(args)), size)
      {
        SameKindsAreFine(fn, types, args, size);
        FineAgrees(fn, types, Reverse(args), EraseAll(Reverse(args)), size);
      }
    } else {
      var j := NumberForBoolean(args);
      IncrementTellsApart(args, EraseAll(Reverse(args)), size, j);
    }
  }

  /** The same for failing alone: in all accepted calls with args the machine fails exactly when the native call on
      args in reverse evaluates something that is not total, if and only if kinds read the same backwards. */
  lemma FailReversedIff(args: seq<Value>, size: nat)
    requires |args| <= size && AllWords(args)
    ensures (forall fn, types, fuel: nat | FineCall(fn, types, args, EraseAll(args), size) ::
               FailsAlike(VmSource.Exec(fn.body, Resize(Reverse(args), size), [], fuel), fn, EraseAll(Reverse(args)),
                          fuel))
         <==> KindsReadBackwards(args)
  {
    if KindsReadBackwards(args) {
      forall fn, types, fuel: nat | FineCall(fn, types, args, EraseAll(args), size)
        ensures FailsAlike(VmSource.Exec(fn.body, Resize(Reverse(args), size), [], fuel), fn,
                           EraseAll(Reverse(args)), fuel)
      {
        SameKindsAreFine(fn, types, args, size);
        CallsAgree(fn, types, Reverse(args), EraseAll(Reverse(args)), size, fuel);
      }
    } else {
      var j := NumberForBoolean(args);
      ParityFails(args, EraseAll(Reverse(args)), size, j);
      assert !FailsAlike(VmSource.Exec(Parity(|args|, j).body, Resize(Reverse(args), size), [], 0), Parity(|args|, j),
                         EraseAll(Reverse(args)), 0);
    }
  }

  lemma SameKindsAreFine(fn: Source.Function, types: Types, args: seq<Value>, size: nat)
    requires FineCall(fn, types, args, EraseAll(args), size) && KindsReadBackwards(args)
    ensures FineCall(fn, types, Reverse(args), EraseAll(Reverse(args)), size)
  {
    hide WellScopedFunction, Typed, Fits;
    forall i: nat | i < |args|
      ensures fn.params[i] == i && ArgumentFits(types, Reverse(args), EraseAll(Reverse(args)), i)
    {
      assert ArgumentFits(types, args, EraseAll(args), i) && ArgumentFits(types, args, EraseAll(args), |args| - 1 - i);
    }
  }

  /** When kinds do not read the same backwards, some number's slot gets a boolean. */
  lemma NumberForBoolean(args: seq<Value>) returns (j: nat)
    requires AllWords(args) && !KindsReadBackwards(args)
    ensures j < |args| && args[j].Int? && Reverse(args)[j].Bool?
  {
    var i: nat :| i < |args| && (args[i].Int? <==> !Reverse(args)[i].Int?);
    j := if args[i].Int? then i else |args| - 1 - i;
    assert IsWord(args[i]) && IsWord(args[|args| - 1 - i]);
  }

  // ----- functions that tell argument lists apart -----

  /** A function of n number or boolean parameters that returns e. */
  function Returning(n: nat, e: Source.Expr): (fn: Source.Function)
    ensures |fn.params| == n
  {
    Source.Function(seq(n, k requires 0 <= k < n => k), Source.Return(e))
  }

  /** Returns the i-th parameter. */
  function Pick(n: nat, i: nat): Source.Function {
    Returning(n, Source.Variable(i))
  }

  function Successor(i: nat): Source.Expr {
    Source.Binary(Source.Plus, Source.Variable(i), Source.Literal(Source.Number(1)))
  }

  /** Returns the i-th parameter plus 1. */
  function Increment(n: nat, i: nat): Source.Function {
    Returning(n, Successor(i))
  }

  /** Returns the remainder by 2 of the i-th parameter plus 1. */
  function Parity(n: nat, i: nat): Source.Function {
    Returning(n, Source.Binary(Source.Percent, Successor(i), Source.Literal(Source.Number(2))))
  }

  function TypesOf(values: seq<Value>): Types {
    map k: nat | k < |values| :: if values[k].Int? then IntType else BoolType
  }

  lemma ReturningIsFine(args: seq<Value>, size: nat, e: Source.Expr, i: nat)
    requires i < |args| <= size && AllWords(args) && ExprVars(e) == {i} && ExprFits(e, size)
    requires Exact(e, TypesOf(args))
    ensures FineCall(Returning(|args|, e), TypesOf(args), args, EraseAll(args), size)
  {
    var fn := Returning(|args|, e);
    assert fn.params[i] in Names(fn.params, |args|);
    forall k: nat | k < |args| ensures ArgumentFits(TypesOf(args), args, EraseAll(args), k) { }
  }

  lemma PickTellsApart(args: seq<Value>, size: nat, i: nat)
    requires i < |args| <= size && AllWords(args) && KindsReadBackwards(args) && Reverse(args)[i] != args[i]
    ensures FineCall(Pick(|args|, i), TypesOf(args), args, EraseAll(args), size)
    ensures !CallAgrees(Pick(|args|, i), Reverse(args), EraseAll(args), size)
  {
    hide Source.Call, Source.ExecAll, VmSource.Exec, VmSource.Eval, FineCall, TotalCall;
    var fn := Pick(|args|, i);
    ReturningIsFine(args, size, Source.Variable(i), i);
    PickReturns(args, size, i);
    assert IsWord(args[i]) && IsWord(args[|args| - 1 - i]);
    PickRuns(Resize(Reverse(args), size), i);
    assert !RunAgrees(fn, Reverse(args), EraseAll(args), size, 0);
  }

  lemma PickRuns(vars: Slots, i: nat)
    requires i < |vars|
    ensures VmSource.Exec(Source.Return(Source.Variable(i)), vars, [], 0) == Flow.Returned(vars[i], [])
  {
    assert VmSource.Eval(Source.Variable(i), vars) == Some(vars[i]);
  }

  lemma PickReturns(args: seq<Value>, size: nat, i: nat)
    requires i < |args| && FineCall(Pick(|args|, i), TypesOf(args), args, EraseAll(args), size)
    ensures Source.Call(Pick(|args|, i), EraseAll(args), 0) == Source.Returned(Erase(args[i]), [])
  {
    ParameterHolds(Pick(|args|, i), TypesOf(args), args, size, i);
  }

  /** In a native call the i-th parameter holds the i-th argument. */
  lemma ParameterHolds(fn: Source.Function, types: Types, args: seq<Value>, size: nat, i: nat)
    requires Callable(fn, types, args, EraseAll(args), size) && i < |args| && i in types && !types[i].TruthType?
    ensures Hir.Get(Source.Arguments(fn.params, EraseAll(args), |args|), i) == Erase(args[i])
  {
    hide Source.Arguments, Callable, Resize, Unset, Matches, Erase, EraseAll;
    SlotHolds(fn, types, args, EraseAll(args), size, i);
    MatchesIsErase(args[i], Hir.Get(Source.Arguments(fn.params, EraseAll(args), |args|), i), types[i]);
  }

  lemma MatchesIsErase(v: Value, y: int, t: Type)
    requires Matches(v, y, t) && !t.TruthType?
    ensures y == Erase(v)
  {
  }

  lemma SlotHolds(fn: Source.Function, types: Types, slots: seq<Value>, words: seq<int>, size: nat, i: nat)
    requires Callable(fn, types, slots, words, size) && i < |slots|
    ensures SlotAgrees(Resize(slots, size), Source.Arguments(fn.params, words, |fn.params|), types, i)
    ensures Resize(slots, size)[i] == slots[i] && |fn.params| == |slots|
  {
    hide Source.Arguments, SlotAgrees, Matches;
    ArgumentsAgree(fn, types, slots, words, size, |fn.params|);
    assert fn.params[i] == i by { assert ArgumentFits(types, slots, words, i); }
    assert fn.params[i] in Names(fn.params, |fn.params|);
  }

  /** A boolean plus 1 is a double, which native code does not have. */
  lemma IncrementTellsApart(args: seq<Value>, words: seq<int>, size: nat, j: nat)
    requires j < |args| <= size && AllWords(args) && args[j].Int? && Reverse(args)[j].Bool?
    ensures FineCall(Increment(|args|, j), TypesOf(args), args, EraseAll(args), size)
    ensures !CallAgrees(Increment(|args|, j), Reverse(args), words, size)
  {
    var fn := Increment(|args|, j);
    SuccessorTyped(TypesOf(args), j);
    ReturningIsFine(args, size, Successor(j), j);
    SuccessorOfBoolean(Resize(Reverse(args), size), j);
    assert !RunAgrees(fn, Reverse(args), words, size, 0);
  }

  lemma SuccessorVars(j: nat, size: nat)
    requires j < size
    ensures ExprVars(Successor(j)) == {j} && ExprFits(Successor(j), size)
  {
    var x, one := Source.Variable(j), Source.Literal(Source.Number(1));
    assert ExprVars(x) == {j} && ExprVars(one) == {} && ExprFits(x, size) && ExprFits(one, size);
  }

  lemma SuccessorTyped(types: Types, j: nat)
    requires j in types && types[j] == IntType
    ensures TypeOf(Successor(j), types) == Some(IntType)
  {
    assert TypeOf(Source.Variable(j), types) == Some(IntType);
  }

  lemma SuccessorOfBoolean(vars: Slots, j: nat)
    requires j < |vars| && vars[j].Bool?
    ensures VmSource.Eval(Successor(j), vars) == Some(Double(vars[j].ToDouble() + 1.0))
  {
    assert VmSource.Eval(Source.Variable(j), vars) == Some(vars[j]);
  }

  /** And a double has no remainder. */
  lemma ParityFails(args: seq<Value>, words: seq<int>, size: nat, j: nat)
    requires j < |args| <= size && AllWords(args) && args[j].Int? && Reverse(args)[j].Bool?
    ensures var fn := Parity(|args|, j);
            && FineCall(fn, TypesOf(args), args, EraseAll(args), size)
            && VmSource.Exec(fn.body, Resize(Reverse(args), size), [], 0).Trapped? && TotalCall(fn, words, 0)
  {
    var e, two := Successor(j), Source.Literal(Source.Number(2));
    var parity := Source.Binary(Source.Percent, e, two);
    SuccessorTyped(TypesOf(args), j);
    assert TypeOf(two, TypesOf(args)) == Some(IntType);
    assert TypeOf(parity, TypesOf(args)) == Some(IntType);
    SuccessorVars(j, size);
    assert ExprVars(two) == {} && ExprFits(two, size);
    ReturningIsFine(args, size, parity, j);
    SuccessorOfBoolean(Resize(Reverse(args), size), j);
    assert VmSource.Eval(parity, Resize(Reverse(args), size)) == None;
    ParityTotal(Source.Arguments(Parity(|args|, j).params, words, |args|), j);
  }

  lemma ParityTotal(m: Source.Vars, j: nat)
    ensures Total(Source.Binary(Source.Percent, Successor(j), Source.Literal(Source.Number(2))), m)
  {
    var x := Source.Variable(j);
    assert Source.Eval(x, m, []) == Some(Hir.Get(m, j)) && Total(x, m);
    assert Source.Eval(Successor(j), m, []) == Some(Hir.Get(m, j) + 1) && Total(Successor(j), m);
  }

  /** `return a + 1;` called with 1 and true: the words read the same backwards, the kinds do not. It returns 2
      natively, and a double in the machine, whose `a` is true. */
  lemma AddsToTrue()
    ensures FineCall(Increment(2, 0), TypesOf([Int(1), Bool(true)]), [Int(1), Bool(true)], [1, 1], 2)
    ensures Reverse([1, 1]) == [1, 1] && Source.Call(Increment(2, 0), [1, 1], 0) == Source.Returned(2, [])
    ensures VmSource.Exec(Increment(2, 0).body, Resize(Reverse([Int(1), Bool(true)]), 2), [], 0)
         == Flow.Returned(Double(2.0), [])
  {
    var args := [Int(1), Bool(true)];
    assert EraseAll(args) == [1, 1];
    SuccessorTyped(TypesOf(args), 0);
    ReturningIsFine(args, 2, Successor(0), 0);
    SuccessorOfBoolean(Resize(Reverse(args), 2), 0);
    ParameterHolds(Increment(2, 0), TypesOf(args), args, 2, 0);
    SuccessorReturned(Increment(2, 0), [1, 1], 0);
  }

  lemma SuccessorReturned(fn: Source.Function, words: seq<int>, i: nat)
    requires fn.body == Source.Return(Successor(i))
    ensures var x := Hir.Get(Source.Arguments(fn.params, words, |fn.params|), i);
            Source.Call(fn, words, 0) == Source.Returned(x + 1, [])
  {
    var m := Source.Arguments(fn.params, words, |fn.params|);
    assert Source.Eval(Source.Variable(i), m, words) == Some(Hir.Get(m, i));
    assert Source.Eval(Successor(i), m, words) == Some(Hir.Get(m, i) + 1);
  }

  /** `return a - b;` */
  const SUBTRACT: Source.Function :=
    Source.Function([0, 1], Source.Return(Source.Binary(Source.Minus, Source.Variable(0), Source.Variable(1))))

  /** Called with 5 and 3 it returns 2 natively and -2 in the machine. */
  lemma SubtractsBackwards()
    ensures FineCall(SUBTRACT, TypesOf([Int(5), Int(3)]), [Int(5), Int(3)], [5, 3], 2)
    ensures Source.Call(SUBTRACT, [5, 3], 0) == Source.Returned(2, [])
    ensures VmSource.Exec(SUBTRACT.body, Resize(Reverse([Int(5), Int(3)]), 2), [], 0) == Flow.Returned(Int(-2), [])
  {
    assert Reverse([Int(5), Int(3)]) == [Int(3), Int(5)];
    Subtracts(5, 3);
    Subtracts(3, 5);
  }

  lemma Subtracts(a: int, b: int)
    ensures FineCall(SUBTRACT, TypesOf([Int(a), Int(b)]), [Int(a), Int(b)], [a, b], 2)
    ensures Source.Call(SUBTRACT, [a, b], 0) == Source.Returned(a - b, [])
    ensures VmSource.Exec(SUBTRACT.body, Resize([Int(a), Int(b)], 2), [], 0) == Flow.Returned(Int(a - b), [])
  {
    hide Source.Arguments;
    var slots, types := [Int(a), Int(b)], TypesOf([Int(a), Int(b)]);
    var names := Names(SUBTRACT.params, 2);
    assert SUBTRACT.params[0] in names && SUBTRACT.params[1] in names;
    ArgumentsAgree(SUBTRACT, types, slots, [a, b], 2, 2);
    var m := Source.Arguments(SUBTRACT.params, [a, b], 2);
    assert SlotAgrees(Resize(slots, 2), m, types, 0) && SlotAgrees(Resize(slots, 2), m, types, 1);
    var x, y := Source.Variable(0), Source.Variable(1);
    assert TypeOf(x, types) == TypeOf(y, types) == Some(IntType);
    assert Source.Eval(x, m, [a, b]) == Some(a) && Source.Eval(y, m, [a, b]) == Some(b);
    assert VmSource.Eval(x, Resize(slots, 2)) == Some(Int(a)) && VmSource.Eval(y, Resize(slots, 2)) == Some(Int(b));
    assert VmSource.Eval(Source.Binary(Source.Minus, x, y), Resize(slots, 2)) == Some(Int(a - b));
  }

  // ----- operands that are not skipped -----

  /** `return x != 0 && 10 / x > 1;` */
  const GUARDED: Source.Expr :=
    Source.LogicalAnd(
      Source.Binary(Source.NotEqual, Source.Variable(0), Source.Literal(Source.Number(0))),
      Source.Binary(Source.Greater, Source.Binary(Source.Slash, Source.Literal(Source.Number(10)), Source.Variable(0)),
                    Source.Literal(Source.Number(1))))

  /** Called with 0 it is false natively, and an error in the virtual machine, which divides all the same. */
  lemma GuardDoesNotGuard()
    ensures TypeOf(GUARDED, map[0 := IntType]) == Some(BoolType) && !ExprUnguarded(GUARDED)
    ensures Source.Eval(GUARDED, map[0 := 0], [0]) == Some(0)
    ensures VmSource.Eval(GUARDED, [Int(0)]) == None
  {
    var guard := Source.Binary(Source.NotEqual, Source.Variable(0), Source.Literal(Source.Number(0)));
    var quotient := Source.Binary(Source.Slash, Source.Literal(Source.Number(10)), Source.Variable(0));
    assert TypeOf(guard, map[0 := IntType]) == Some(BoolType) && TypeOf(quotient, map[0 := IntType]) == Some(IntType);
    assert Source.Eval(guard, map[0 := 0], [0]) == Some(0);
    assert VmSource.Eval(quotient, [Int(0)]) == None;
  }

  /** `2 && 3`, which the type rules of the language allow, is 3 natively and true in the virtual machine. */
  lemma AndOfIntegersDiffers()
    ensures var e := Source.LogicalAnd(Source.Literal(Source.Number(2)), Source.Literal(Source.Number(3)));
            && Source.Eval(e, map[], []) == Some(3) && VmSource.Eval(e, []) == Some(Bool(true))
            && TypeOf(e, map[]) == Some(TruthType)
  {
  }
}
