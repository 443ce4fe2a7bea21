/** The stack machine. A run starts at instruction 0 with an empty stack
    and fetches, advances the instruction index, then executes, until
    HALT. The variables live in one environment that outlives the run, so
    a later run sees the definitions of an earlier one. PRINT hands the
    popped value to an output sink; here the sink's values are collected
    in order.

    The C machine exits on an unknown opcode and on an undefined variable.
    A pop from an empty stack, a CONST operand outside the constant table,
    an instruction index outside the code and a division by zero are
    undefined behaviour there; here each is a fault of its own. A run is
    bounded by a number of steps, and a run that uses them all up stops
    with `OutOfFuel`. */
module Vm {
  import opened Results
  import opened Values
  import opened Compiler
  import opened Environment

  datatype Fault =
    | StackUnderflow
    | BadConstant(index: int)
    | IpOutOfRange(ip: int)
    | DivisionByZero
    | Undefined(name: string)
    | UnknownOpcode(op: OpCode)
    | OutOfFuel

  /** The instruction index, the operand stack (top last), the variables
      and the values printed so far. */
  datatype Machine = Machine(ip: int, stack: seq<int>, env: Env, output: seq<int>)

  /** The machine after one instruction: still running, or halted. */
  datatype Next = Continue(m: Machine) | Stop(m: Machine)

  /** How a run ends: the machine when it halted, or the machine just
      before the instruction that faulted. */
  datatype Outcome = Outcome(m: Machine, fault: Option<Fault>)

  /** The name a variable operand stands for: the C code truncates the
      operand to a `char` and reads it as a one-character string, which is
      empty when that character is the terminator. */
  function VarName(operand: int): (name: string)
    ensures |name| <= 1
    ensures operand % 256 == 0 <==> name == ""
  {
    var b := operand % 256;
    if b == 0 then "" else [b as char]
  }

  /** The value an operator opcode computes from the two operands it pops,
      the left one pushed first. */
  function Apply(op: OpCode, a: int, b: int): (r: Result<int, Fault>)
    requires IsOperator(op)
    ensures r.Err? <==> op == Div && b == 0
    ensures r.Err? ==> r.error == DivisionByZero
  {
    match op
    case Add => Ok(a + b)
    case Sub => Ok(a - b)
    case Mul => Ok(a * b)
    case Div => if b == 0 then Err(DivisionByZero) else Ok(CDiv(a, b))
    case Equal => Ok(Truth(a == b))
    case NotEqual => Ok(Truth(a != b))
    case Less => Ok(Truth(a < b))
    case LessEqual => Ok(Truth(a <= b))
    case Greater => Ok(Truth(a > b))
    case GreaterEqual => Ok(Truth(a >= b))
  }

  predicate IsComparison(op: OpCode) {
    op in {Equal, NotEqual, Less, LessEqual, Greater, GreaterEqual}
  }

  /** The top of a non-empty stack and the stack without it. */
  function Top(s: seq<int>): int
    requires |s| > 0
  {
    s[|s| - 1]
  }

  function Below(s: seq<int>): seq<int>
    requires |s| > 0
  {
    s[..|s| - 1]
  }

  /** One fetch-advance-execute cycle of `run`. */
  function Step(bc: Bytecode, m: Machine): (r: Result<Next, Fault>)
  {
    if !(0 <= m.ip < |bc.code|) then Err(IpOutOfRange(m.ip))
    else
      var x := bc.code[m.ip];
      var m1 := m.(ip := m.ip + 1);
      if IsOperator(x.op) then
        if |m.stack| < 2 then Err(StackUnderflow)
        else
          var b, rest := Top(m.stack), Below(m.stack);
          var v :- Apply(x.op, Top(rest), b);
          Ok(Continue(m1.(stack := Below(rest) + [v])))
      else
        match x.op
        case Const =>
          if 0 <= x.operand < |bc.constants| then Ok(Continue(m1.(stack := m.stack + [bc.constants[x.operand]])))
          else Err(BadConstant(x.operand))
        case LoadVar =>
          var name := VarName(x.operand);
          if Lookup(m.env, name).Err? then Err(Undefined(name))
          else Ok(Continue(m1.(stack := m.stack + [Lookup(m.env, name).value])))
        case SetVar =>
          if |m.stack| == 0 then Err(StackUnderflow)
          else
            var name := VarName(x.operand);
            if Assign(m.env, name, Top(m.stack)).Err? then Err(Undefined(name))
            else Ok(Continue(m1.(stack := Below(m.stack), env := Assign(m.env, name, Top(m.stack)).value)))
        case DefineVar =>
          if |m.stack| == 0 then Err(StackUnderflow)
          else Ok(Continue(m1.(stack := Below(m.stack), env := Define(m.env, VarName(x.operand), Top(m.stack)))))
        case Print =>
          if |m.stack| == 0 then Err(StackUnderflow)
          else Ok(Continue(m1.(stack := Below(m.stack), output := m.output + [Top(m.stack)])))
        case JumpIfFalse =>
          if |m.stack| == 0 then Err(StackUnderflow)
          else Ok(Continue(m1.(stack := Below(m.stack), ip := if Top(m.stack) == 0 then x.operand else m.ip + 1)))
        case Jump => Ok(Continue(m1.(ip := x.operand)))
        case Halt => Ok(Stop(m1))
        case _ => Err(UnknownOpcode(x.op))
  }

  /** Steps until HALT, a fault, or `fuel` steps. */
  function Run(bc: Bytecode, m: Machine, fuel: nat): (o: Outcome)
    decreases fuel
  {
    if fuel == 0 then Outcome(m, Some(OutOfFuel))
    else
      match Step(bc, m)
      case Err(f) => Outcome(m, Some(f))
      case Ok(Stop(m')) => Outcome(m', None)
      case Ok(Continue(m')) => Run(bc, m', fuel - 1)
  }

  /** `run`: instruction 0, an empty stack, the environment the previous
      run left, and nothing printed yet. */
  function RunProgram(bc: Bytecode, env: Env, fuel: nat): Outcome {
    Run(bc, Machine(0, [], env, []), fuel)
  }
}
