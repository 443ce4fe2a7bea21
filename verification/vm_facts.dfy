/** What one instruction does to the machine, what a run keeps, the
    repository's three VM tests, and why compiled code faults only on an
    empty stack, a division by zero or an undefined variable. */
module VmFacts {
  import opened Results
  import opened Values
  import opened Compiler
  import opened Environment
  import opened Layout
  import opened CodeFacts
  import opened Vm

  /** The C relational operators, as the reference for the comparison
      opcodes. */
  predicate Holds(op: OpCode, a: int, b: int)
    requires IsComparison(op)
  {
    match op
    case Equal => a == b
    case NotEqual => a != b
    case Less => a < b
    case LessEqual => a <= b
    case Greater => a > b
    case GreaterEqual => a >= b
  }

  /** An operator pops two values and pushes one, leaving the rest of the
      stack, the variables and the output as they were. It fails only on a
      stack of fewer than two values or a division by zero. */
  lemma OperatorStep(bc: Bytecode, m: Machine)
    requires 0 <= m.ip < |bc.code| && IsOperator(bc.code[m.ip].op)
    ensures |m.stack| < 2 ==> Step(bc, m) == Err(StackUnderflow)
    ensures |m.stack| >= 2 ==>
      (Step(bc, m).Err? <==> bc.code[m.ip].op == Div && Top(m.stack) == 0)
    ensures Step(bc, m).Ok? ==>
      && Step(bc, m).value.Continue?
      && var m' := Step(bc, m).value.m;
      && |m.stack| >= 2
      && |m'.stack| == |m.stack| - 1
      && m'.stack[..|m.stack| - 2] == m.stack[..|m.stack| - 2]
      && m'.ip == m.ip + 1 && m'.env == m.env && m'.output == m.output
  {
  }

  /** A comparison pushes 1 when the relation holds of the two operands,
      the left one pushed first, and 0 when it does not. */
  lemma ComparisonStep(bc: Bytecode, m: Machine)
    requires 0 <= m.ip < |bc.code| && IsComparison(bc.code[m.ip].op) && |m.stack| >= 2
    ensures Step(bc, m).Ok? && Step(bc, m).value.Continue?
    ensures var top := Top(Step(bc, m).value.m.stack);
      var a, b := m.stack[|m.stack| - 2], m.stack[|m.stack| - 1];
      (top == 0 || top == 1) && (top == 1 <==> Holds(bc.code[m.ip].op, a, b))
  {
  }

  /** DIV pushes the quotient truncated toward zero, as C's `/` does. */
  lemma DivisionStep(bc: Bytecode, m: Machine)
    requires 0 <= m.ip < |bc.code| && bc.code[m.ip].op == Div && |m.stack| >= 2 && Top(m.stack) != 0
    ensures Step(bc, m).Ok? && Step(bc, m).value.Continue?
    ensures Truncates(m.stack[|m.stack| - 2], Top(m.stack), Top(Step(bc, m).value.m.stack))
  {
    CDivSpec(m.stack[|m.stack| - 2], Top(m.stack));
  }

  /** PRINT hands the top of the stack to the sink, after everything
      printed before it. */
  lemma PrintStep(bc: Bytecode, m: Machine)
    requires 0 <= m.ip < |bc.code| && bc.code[m.ip].op == Print
    ensures Step(bc, m).Ok? <==> |m.stack| > 0
    ensures Step(bc, m).Ok? ==>
      Step(bc, m) == Ok(Continue(Machine(m.ip + 1, Below(m.stack), m.env, m.output + [Top(m.stack)])))
  {
  }

  /** No instruction takes back what was printed. */
  lemma StepOutput(bc: Bytecode, m: Machine)
    requires Step(bc, m).Ok?
    ensures m.output <= Step(bc, m).value.m.output
  {
  }

  /** A run's output starts with whatever was printed before it. */
  lemma {:induction false} RunOutput(bc: Bytecode, m: Machine, fuel: nat)
    ensures m.output <= Run(bc, m, fuel).m.output
    decreases fuel
  {
    if fuel > 0 && Step(bc, m).Ok? {
      StepOutput(bc, m);
      if Step(bc, m).value.Continue? {
        RunOutput(bc, Step(bc, m).value.m, fuel - 1);
      }
    }
  }

  /** DEFINE_VAR, SET_VAR, LOAD_VAR on one variable: the load reads the
      value the set stored, whatever the define stored before it. */
  lemma DefineSetLoad(bc: Bytecode, m: Machine, id: int)
    requires 0 <= m.ip && m.ip + 3 <= |bc.code|
    requires bc.code[m.ip] == Instruction(DefineVar, id)
    requires bc.code[m.ip + 1] == Instruction(SetVar, id)
    requires bc.code[m.ip + 2] == Instruction(LoadVar, id)
    requires |m.stack| >= 2
    ensures var v, w := m.stack[|m.stack| - 1], m.stack[|m.stack| - 2];
      var r1 := Step(bc, m);
      && r1.Ok? && r1.value.Continue?
      && var r2 := Step(bc, r1.value.m);
      && r2.Ok? && r2.value.Continue?
      && var r3 := Step(bc, r2.value.m);
      && r3.Ok? && r3.value.Continue?
      && r3.value.m.ip == m.ip + 3
      && r3.value.m.stack == m.stack[..|m.stack| - 2] + [w]
  {
    hide Step;
    var name := VarName(id);
    var v, w := m.stack[|m.stack| - 1], m.stack[|m.stack| - 2];
    var env1 := Define(m.env, name, v);
    DefineLookup(m.env, name, v, name);
    AssignFails(env1, name, w);
    var env2 := Assign(env1, name, w).value;
    AssignLookup(env1, name, w, name);
    DefineRule(bc, m, id);
    var m1 := Machine(m.ip + 1, Below(m.stack), env1, m.output);
    SetRule(bc, m1, id);
    var m2 := Machine(m.ip + 2, Below(m1.stack), env2, m.output);
    LoadRule(bc, m2, id);
    assert Below(m1.stack) + [w] == m.stack[..|m.stack| - 2] + [w];
  }

  // ---------------------------------------------------------------------
  // One rule per opcode, and the repository's VM tests
  // ---------------------------------------------------------------------

  lemma ConstRule(bc: Bytecode, m: Machine, k: int)
    requires 0 <= m.ip < |bc.code| && bc.code[m.ip] == Instruction(Const, k) && 0 <= k < |bc.constants|
    ensures Step(bc, m) == Ok(Continue(Machine(m.ip + 1, m.stack + [bc.constants[k]], m.env, m.output)))
  {
  }

  lemma OperatorRule(bc: Bytecode, m: Machine, op: OpCode, a: int, b: int)
    requires 0 <= m.ip < |bc.code| && bc.code[m.ip].op == op && IsOperator(op)
    requires |m.stack| >= 2 && m.stack[|m.stack| - 2] == a && m.stack[|m.stack| - 1] == b
    requires Apply(op, a, b).Ok?
    ensures Step(bc, m) == Ok(Continue(Machine(m.ip + 1, m.stack[..|m.stack| - 2] + [Apply(op, a, b).value], m.env, m.output)))
  {
    assert Below(Below(m.stack)) == m.stack[..|m.stack| - 2];
  }

  lemma PrintRule(bc: Bytecode, m: Machine, v: int)
    requires 0 <= m.ip < |bc.code| && bc.code[m.ip].op == Print && |m.stack| > 0 && Top(m.stack) == v
    ensures Step(bc, m) == Ok(Continue(Machine(m.ip + 1, Below(m.stack), m.env, m.output + [v])))
  {
  }

  lemma DefineRule(bc: Bytecode, m: Machine, id: int)
    requires 0 <= m.ip < |bc.code| && bc.code[m.ip] == Instruction(DefineVar, id) && |m.stack| > 0
    ensures Step(bc, m) == Ok(Continue(Machine(m.ip + 1, Below(m.stack), Define(m.env, VarName(id), Top(m.stack)), m.output)))
  {
  }

  lemma SetRule(bc: Bytecode, m: Machine, id: int)
    requires 0 <= m.ip < |bc.code| && bc.code[m.ip] == Instruction(SetVar, id) && |m.stack| > 0
    requires Assign(m.env, VarName(id), Top(m.stack)).Ok?
    ensures Step(bc, m) == Ok(Continue(Machine(m.ip + 1, Below(m.stack), Assign(m.env, VarName(id), Top(m.stack)).value, m.output)))
  {
  }

  lemma LoadRule(bc: Bytecode, m: Machine, id: int)
    requires 0 <= m.ip < |bc.code| && bc.code[m.ip] == Instruction(LoadVar, id)
    requires Lookup(m.env, VarName(id)).Ok?
    ensures Step(bc, m) == Ok(Continue(Machine(m.ip + 1, m.stack + [Lookup(m.env, VarName(id)).value], m.env, m.output)))
  {
  }

  /** JUMP_IF_FALSE jumps exactly when the popped value is 0. */
  lemma JumpIfFalseRule(bc: Bytecode, m: Machine, target: int)
    requires 0 <= m.ip < |bc.code| && bc.code[m.ip] == Instruction(JumpIfFalse, target) && |m.stack| > 0
    ensures Step(bc, m) == Ok(Continue(Machine(if Top(m.stack) == 0 then target else m.ip + 1, Below(m.stack), m.env, m.output)))
  {
  }

  lemma JumpRule(bc: Bytecode, m: Machine, target: int)
    requires 0 <= m.ip < |bc.code| && bc.code[m.ip] == Instruction(Jump, target)
    ensures Step(bc, m) == Ok(Continue(m.(ip := target)))
  {
  }

  /** HALT stops the run with the stack, variables and output as they are. */
  lemma HaltRule(bc: Bytecode, m: Machine)
    requires 0 <= m.ip < |bc.code| && bc.code[m.ip].op == Halt
    ensures Step(bc, m) == Ok(Stop(m.(ip := m.ip + 1)))
  {
  }

  /** A step that continues costs one unit of fuel. */
  lemma RunContinue(bc: Bytecode, m: Machine, fuel: nat, m': Machine)
    requires fuel > 0 && Step(bc, m) == Ok(Continue(m'))
    ensures Run(bc, m, fuel) == Run(bc, m', fuel - 1)
  {
  }

  lemma RunStop(bc: Bytecode, m: Machine, fuel: nat, m': Machine)
    requires fuel > 0 && Step(bc, m) == Ok(Stop(m'))
    ensures Run(bc, m, fuel) == Outcome(m', None)
  {
  }

  const Global := NewEnvironment(None)

  /** 7 + 3 is printed as 10. */
  lemma Arithmetic()
    ensures var bc := Bytecode([Instruction(Const, 0), Instruction(Const, 1), Instruction(Add, 0),
                                Instruction(Print, 0), Instruction(Halt, 0)], [7, 3]);
      RunProgram(bc, Global, 5).fault == None && RunProgram(bc, Global, 5).m.output == [10]
  {
    hide Step, Run;
    var bc := Bytecode([Instruction(Const, 0), Instruction(Const, 1), Instruction(Add, 0),
                        Instruction(Print, 0), Instruction(Halt, 0)], [7, 3]);
    var m0 := Machine(0, [], Global, []);
    ConstRule(bc, m0, 0);
    assert [] + [7] == [7];
    var m1 := Machine(1, [7], Global, []);
    RunContinue(bc, m0, 5, m1);
    ConstRule(bc, m1, 1);
    assert [7] + [3] == [7, 3];
    var m2 := Machine(2, [7, 3], Global, []);
    RunContinue(bc, m1, 4, m2);
    OperatorRule(bc, m2, Add, 7, 3);
    assert [7, 3][..0] + [10] == [10];
    var m3 := Machine(3, [10], Global, []);
    RunContinue(bc, m2, 3, m3);
    PrintRule(bc, m3, 10);
    var m4 := Machine(4, [], Global, [10]);
    RunContinue(bc, m3, 2, m4);
    HaltRule(bc, m4);
    RunStop(bc, m4, 1, m4.(ip := 5));
  }

  /** `let x = 5; x = 9; yap(x);` by hand: 9 is printed. */
  lemma DefineAssign()
    ensures var x := 'x' as int;
      var bc := Bytecode([Instruction(Const, 0), Instruction(DefineVar, x), Instruction(Const, 1),
                          Instruction(SetVar, x), Instruction(LoadVar, x), Instruction(Print, 0),
                          Instruction(Halt, 0)], [5, 9]);
      RunProgram(bc, Global, 7).fault == None && RunProgram(bc, Global, 7).m.output == [9]
  {
    var x := 'x' as int;
    assert VarName(x) == "x";
    hide *;
    var bc := Bytecode([Instruction(Const, 0), Instruction(DefineVar, x), Instruction(Const, 1),
                        Instruction(SetVar, x), Instruction(LoadVar, x), Instruction(Print, 0),
                        Instruction(Halt, 0)], [5, 9]);
    var env1 := Define(Global, "x", 5);
    DefineLookup(Global, "x", 5, "x");
    AssignFails(env1, "x", 9);
    var env2 := Assign(env1, "x", 9).value;
    AssignLookup(env1, "x", 9, "x");
    var m0 := Machine(0, [], Global, []);
    ConstRule(bc, m0, 0);
    assert [] + [5] == [5];
    var m1 := Machine(1, [5], Global, []);
    RunContinue(bc, m0, 7, m1);
    DefineRule(bc, m1, x);
    var m2 := Machine(2, [], env1, []);
    RunContinue(bc, m1, 6, m2);
    ConstRule(bc, m2, 1);
    assert [] + [9] == [9];
    var m3 := Machine(3, [9], env1, []);
    RunContinue(bc, m2, 5, m3);
    SetRule(bc, m3, x);
    var m4 := Machine(4, [], env2, []);
    RunContinue(bc, m3, 4, m4);
    LoadRule(bc, m4, x);
    var m5 := Machine(5, [9], env2, []);
    RunContinue(bc, m4, 3, m5);
    PrintRule(bc, m5, 9);
    var m6 := Machine(6, [], env2, [9]);
    RunContinue(bc, m5, 2, m6);
    HaltRule(bc, m6);
    RunStop(bc, m6, 1, m6.(ip := 7));
  }

  /** A taken branch: 42 is printed and the else HALT is jumped over. */
  lemma TrueBranch()
    ensures var bc := Bytecode([Instruction(Const, 0), Instruction(JumpIfFalse, 5), Instruction(Const, 1),
                                Instruction(Print, 0), Instruction(Jump, 6), Instruction(Halt, 0),
                                Instruction(Halt, 0)], [1, 42]);
      RunProgram(bc, Global, 6).fault == None && RunProgram(bc, Global, 6).m.output == [42]
  {
    hide Step, Run;
    var bc := Bytecode([Instruction(Const, 0), Instruction(JumpIfFalse, 5), Instruction(Const, 1),
                        Instruction(Print, 0), Instruction(Jump, 6), Instruction(Halt, 0),
                        Instruction(Halt, 0)], [1, 42]);
    var m0 := Machine(0, [], Global, []);
    ConstRule(bc, m0, 0);
    assert [] + [1] == [1];
    var m1 := Machine(1, [1], Global, []);
    RunContinue(bc, m0, 6, m1);
    JumpIfFalseRule(bc, m1, 5);
    var m2 := Machine(2, [], Global, []);
    RunContinue(bc, m1, 5, m2);
    ConstRule(bc, m2, 1);
    assert [] + [42] == [42];
    var m3 := Machine(3, [42], Global, []);
    RunContinue(bc, m2, 4, m3);
    PrintRule(bc, m3, 42);
    var m4 := Machine(4, [], Global, [42]);
    RunContinue(bc, m3, 3, m4);
    JumpRule(bc, m4, 6);
    var m6 := Machine(6, [], Global, [42]);
    RunContinue(bc, m4, 2, m6);
    HaltRule(bc, m6);
    RunStop(bc, m6, 1, m6.(ip := 7));
  }

  // ---------------------------------------------------------------------
  // Compiled programs
  // ---------------------------------------------------------------------

  /** The faults compiled code can meet. The others (an unknown opcode, a
      CONST outside the table, an index outside the code) cannot happen. */
  predicate RuntimeFault(f: Fault) {
    f == StackUnderflow || f == DivisionByZero || f.Undefined?
  }

  /** The C machine exits on the four opcodes it has no case for. */
  lemma UnhandledStep(bc: Bytecode, m: Machine)
    requires 0 <= m.ip < |bc.code| && Unhandled(bc.code[m.ip].op)
    ensures Step(bc, m) == Err(UnknownOpcode(bc.code[m.ip].op))
  {
  }

  /** What compiled code guarantees the machine: it ends in HALT, its jumps
      stay inside it, its CONST operands index the table, and it uses no
      opcode the machine rejects. */
  predicate WellFormed(bc: Bytecode) {
    && |bc.code| > 0 && bc.code[|bc.code| - 1].op == Halt
    && forall i | 0 <= i < |bc.code| ::
      && (IsJump(bc.code[i].op) ==> 0 <= bc.code[i].operand < |bc.code|)
      && (bc.code[i].op == Const ==> 0 <= bc.code[i].operand < |bc.constants|)
      && !Unhandled(bc.code[i].op)
  }

  lemma CompiledWellFormed(ss: seq<Ast.Stmt>)
    requires Compile(ss).Ok?
    ensures WellFormed(Compile(ss).value)
  {
    ProgramOperands(ss);
  }

  /** One step of well-formed code from a valid index either faults at
      run time or moves to a valid index. */
  lemma SafeStep(bc: Bytecode, m: Machine)
    requires WellFormed(bc) && 0 <= m.ip < |bc.code|
    ensures var r := Step(bc, m);
      && (r.Err? ==> RuntimeFault(r.error))
      && (r.Ok? && r.value.Continue? ==> 0 <= r.value.m.ip < |bc.code|)
  {
    hide Apply, Define, Assign, Lookup;
    var x := bc.code[m.ip];
    assert IsJump(x.op) ==> 0 <= x.operand < |bc.code|;
    assert x.op == Const ==> 0 <= x.operand < |bc.constants|;
    assert !Unhandled(x.op);
  }

  /** A run of well-formed code from a valid index ends in HALT, in a
      run-time fault, or out of fuel. */
  lemma {:induction false} SafeRun(bc: Bytecode, m: Machine, fuel: nat)
    requires WellFormed(bc) && 0 <= m.ip < |bc.code|
    ensures var o := Run(bc, m, fuel);
      o.fault.Some? ==> RuntimeFault(o.fault.value) || o.fault.value == OutOfFuel
    decreases fuel
  {
    if fuel > 0 {
      SafeStep(bc, m);
      var r := Step(bc, m);
      if r.Ok? && r.value.Continue? {
        SafeRun(bc, r.value.m, fuel - 1);
      }
    }
  }

  /** So a `run` of a compiled program never meets an unknown opcode, a
      CONST outside the table or an index outside the code. */
  lemma CompiledProgram(ss: seq<Ast.Stmt>, env: Env, fuel: nat)
    requires Compile(ss).Ok?
    ensures var o := RunProgram(Compile(ss).value, env, fuel);
      o.fault.Some? ==> RuntimeFault(o.fault.value) || o.fault.value == OutOfFuel
  {
    CompiledWellFormed(ss);
    SafeRun(Compile(ss).value, Machine(0, [], env, []), fuel);
  }
}
