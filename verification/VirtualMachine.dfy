/** The stack machine: its values, its instructions and one step of it, inside one call frame. */
module VirtualMachine {
  import opened Wrappers
  import Hir
  import Source

  /** Doubles arise from arithmetic on booleans; Garbage fills slots nothing has been stored in. */
  datatype Value = Int(n: int) | Bool(b: bool) | Double(x: real) | Garbage
  {
    predicate IsNumber() { !Garbage? }

    predicate Truthy() {
      match this
      case Int(k) => k != 0
      case Bool(c) => c
      case Double(y) => y != 0.0
      case Garbage => false
    }

    function ToDouble(): real
      requires IsNumber()
    {
      match this
      case Int(k) => k as real
      case Bool(c) => if c then 1.0 else 0.0
      case Double(y) => y
    }

    function ToInt(): int
      requires Int? || Bool?
    {
      if Int? then n else Source.Truth(b)
    }
  }

  function ValueOf(c: Source.Constant): Value {
    match c case Number(n) => Int(n) case Boolean(b) => Bool(b)
  }

  /** Values of different kinds are equal when they are numbers of the same size; garbage equals nothing. */
  function IsEqual(a: Value, b: Value): bool {
    if a.Int? && b.Int? then a.n == b.n
    else if a.Bool? && b.Bool? then a.b == b.b
    else a.IsNumber() && b.IsNumber() && a.ToDouble() == b.ToDouble()
  }

  /** Two integers give an integer, anything else a double. */
  function ApplyArithmetic(op: Source.BinaryOp, a: Value, b: Value): Option<Value>
    requires op.Plus? || op.Minus? || op.Star? || op.Slash?
  {
    if !a.IsNumber() || !b.IsNumber() then None
    else if a.Int? && b.Int? then
      match Source.EvalBinary(op, a.n, b.n) case None => None case Some(k) => Some(Int(k))
    else
      var x, y := a.ToDouble(), b.ToDouble();
      match op
      case Plus => Some(Double(x + y))
      case Minus => Some(Double(x - y))
      case Star => Some(Double(x * y))
      case Slash => if y == 0.0 then None else Some(Double(x / y))
  }

  function Compare(op: Source.BinaryOp, a: Value, b: Value): Option<Value>
    requires op.Less? || op.LessEqual? || op.Greater? || op.GreaterEqual?
  {
    if !a.IsNumber() || !b.IsNumber() then None
    else
      var x, y := a.ToDouble(), b.ToDouble();
      match op
      case Less => Some(Bool(x < y))
      case LessEqual => Some(Bool(x <= y))
      case Greater => Some(Bool(x > y))
      case GreaterEqual => Some(Bool(x >= y))
  }

  /** None stands for an error of the machine. */
  function ApplyBinary(op: Source.BinaryOp, a: Value, b: Value): Option<Value> {
    match op
    case EqualEqual => Some(Bool(IsEqual(a, b)))
    case NotEqual => Some(Bool(!IsEqual(a, b)))
    case Percent =>
      if !a.IsNumber() || !b.IsNumber() || a.Double? || b.Double? || b.ToInt() == 0 then None
      else Some(Int(a.ToInt() - b.ToInt() * Hir.Quotient(a.ToInt(), b.ToInt())))
    case Less => Compare(op, a, b)
    case LessEqual => Compare(op, a, b)
    case Greater => Compare(op, a, b)
    case GreaterEqual => Compare(op, a, b)
    case _ => ApplyArithmetic(op, a, b)
  }

  function ApplyUnary(op: Source.UnaryOp, a: Value): Option<Value> {
    match op
    case LogicalNot => Some(Bool(!a.Truthy()))
    case Negate =>
      if !a.IsNumber() then None
      else if a.Int? then Some(Int(-a.n))
      else Some(Double(-a.ToDouble()))
  }

  datatype Opcode =
    | PushConst | Pop
    | Binary(op: Source.BinaryOp) | And | Or | Unary(unary: Source.UnaryOp)
    | LoadLocal | StoreLocal
    | Jump | JumpIfFalse
    | Print
    | ReturnValue | ReturnVoid

  /** Instructions without an operand hold -1, and so do jumps that have not been patched. */
  datatype Instruction = Instruction(opcode: Opcode, operand: int)

  datatype Chunk = Chunk(code: seq<Instruction>, constants: seq<Source.Constant>)

  /** In a frame that starts at `base` of the stack, or after it has returned, or after an error. */
  datatype State =
    | Going(ip: int, stack: seq<Value>, out: seq<Value>)
    | Returned(stack: seq<Value>, out: seq<Value>)
    | Failed(out: seq<Value>)

  function Unset(n: nat): seq<Value> {
    seq(n, _ => Garbage)
  }

  function Resize(s: seq<Value>, n: nat): seq<Value> {
    if n <= |s| then s[..n] else s + Unset(n - |s|)
  }

  /** Where the frame of a call starts, and the stack it starts with: the arguments are there already, and fill
      its first slots from the bottom up. */
  function EnterFrame(stack: seq<Value>, arguments: nat, size: nat): (nat, seq<Value>)
    requires arguments <= |stack|
  {
    var base := |stack| - arguments;
    (base, Resize(stack, base + size))
  }

  function Replace(s: State, pops: nat, v: Option<Value>): State
    requires s.Going? && pops <= |s.stack|
  {
    match v
    case None => Failed(s.out)
    case Some(x) => Going(s.ip + 1, s.stack[..|s.stack| - pops] + [x], s.out)
  }

  /** How many values an instruction takes from the stack. */
  function Needs(op: Opcode): nat {
    match op
    case Binary(_) => 2
    case And => 2
    case Or => 2
    case PushConst => 0
    case LoadLocal => 0
    case Jump => 0
    case ReturnVoid => 0
    case _ => 1
  }

  /** Executes one instruction; the frame's first slot is `base`. */
  function Execute(i: Instruction, constants: seq<Source.Constant>, base: nat, s: State): State
    requires s.Going? && Needs(i.opcode) <= |s.stack|
  {
    var n := |s.stack|;
    match i.opcode
    case PushConst =>
      if 0 <= i.operand < |constants| then Replace(s, 0, Some(ValueOf(constants[i.operand]))) else Failed(s.out)
    case Pop => Going(s.ip + 1, s.stack[..n - 1], s.out)
    case Binary(op) => Replace(s, 2, ApplyBinary(op, s.stack[n - 2], s.stack[n - 1]))
    case And => Replace(s, 2, Some(Bool(s.stack[n - 2].Truthy() && s.stack[n - 1].Truthy())))
    case Or => Replace(s, 2, Some(Bool(s.stack[n - 2].Truthy() || s.stack[n - 1].Truthy())))
    case Unary(op) => Replace(s, 1, ApplyUnary(op, s.stack[n - 1]))
    case LoadLocal =>
      if 0 <= base + i.operand < n then Replace(s, 0, Some(s.stack[base + i.operand])) else Failed(s.out)
    case StoreLocal =>
      if 0 <= base + i.operand < n - 1 then Going(s.ip + 1, s.stack[base + i.operand := s.stack[n - 1]], s.out)
      else Failed(s.out)
    case Jump => s.(ip := i.operand)
    case JumpIfFalse => Going(if s.stack[n - 1].Truthy() then s.ip + 1 else i.operand, s.stack[..n - 1], s.out)
    case Print => Going(s.ip + 1, s.stack[..n - 1], s.out + [s.stack[n - 1]])
    case ReturnValue =>
      if base == 0 then Failed(s.out) else Returned(Resize(s.stack[..n - 1], base - 1) + [s.stack[n - 1]], s.out)
    case ReturnVoid => if base == 0 then Failed(s.out) else Returned(Resize(s.stack, base - 1) + [Garbage], s.out)
  }

  function Step(c: Chunk, base: nat, s: State): State {
    if !s.Going? then s
    else if !(0 <= s.ip < |c.code|) || |s.stack| < Needs(c.code[s.ip].opcode) then Failed(s.out)
    else Execute(c.code[s.ip], c.constants, base, s)
  }

  function Run(c: Chunk, base: nat, s: State, n: nat): State {
    if n == 0 then s else Step(c, base, Run(c, base, s, n - 1))
  }

  lemma {:induction false} RunSum(c: Chunk, base: nat, s: State, m: nat, n: nat)
    ensures Run(c, base, s, m + n) == Run(c, base, Run(c, base, s, m), n)
  {
    hide Step;
    if n > 0 { RunSum(c, base, s, m, n - 1); }
  }

  /** A machine that has stopped stays as it is. */
  lemma {:induction false} StoppedStays(c: Chunk, base: nat, s: State, m: nat, n: nat)
    requires m <= n && !Run(c, base, s, m).Going?
    ensures Run(c, base, s, n) == Run(c, base, s, m)
  {
    if m < n { StoppedStays(c, base, s, m, n - 1); }
  }
}
