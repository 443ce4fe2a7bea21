/** The bytecode compiler: a walk over the syntax tree that appends
    instructions to a growing code array and literal values to a constant
    table. Forward jumps are emitted with a placeholder operand and patched
    once their target is known. A variable is named by the character code
    of the first character of its name, so names that share a first
    character share a variable. The C compiler exits on an invalid
    assignment target or an unknown operator; here those are errors. */
module Compiler {
  import opened Results
  import Lexer
  import opened Ast
  import opened Values

  /** The instruction set, in the order of the C enumeration. STORE_VAR,
      LOAD_CONST, LOOP and POP are declared but never emitted, and the VM
      rejects them. */
  datatype OpCode =
    | Const | Add | Sub | Mul | Div | Print
    | LoadVar | SetVar | DefineVar | StoreVar
    | Equal | NotEqual | Less | LessEqual | Greater | GreaterEqual
    | LoadConst | JumpIfFalse | Jump | Loop | Pop | Halt

  /** An opcode and its operand: a constant index, a variable's character
      code, an absolute jump target, or an unused 0. */
  datatype Instruction = Instruction(op: OpCode, operand: int)

  datatype Bytecode = Bytecode(code: seq<Instruction>, constants: seq<int>)

  datatype CompileError = InvalidAssignmentTarget | UnknownOperator(op: string)

  // ---------------------------------------------------------------------
  // Operators and names
  // ---------------------------------------------------------------------

  /** The opcodes that pop two values and push the result of an operator. */
  predicate IsOperator(c: OpCode) {
    c in {Add, Sub, Mul, Div, Equal, NotEqual, Less, LessEqual, Greater, GreaterEqual}
  }

  /** The chain of `strcmp` tests that picks the opcode of a binary
      operator, None for any other text. It is written as a test on the
      length and then the characters; `OperatorCodeText` shows it accepts
      exactly the ten operator texts. */
  function OperatorCode(op: string): (r: Option<OpCode>)
    ensures r.Some? ==> IsOperator(r.value)
    ensures IsAssignment(op) ==> r.None?
  {
    if |op| == 1 then
      match op[0]
      case '+' => Some(Add)
      case '-' => Some(Sub)
      case '*' => Some(Mul)
      case '/' => Some(Div)
      case '<' => Some(Less)
      case '>' => Some(Greater)
      case _ => None
    else if |op| == 2 && op[1] == '=' then
      match op[0]
      case '=' => Some(Equal)
      case '!' => Some(NotEqual)
      case '<' => Some(LessEqual)
      case '>' => Some(GreaterEqual)
      case _ => None
    else None
  }

  /** The text `=`, which the compiler tests for first. */
  predicate IsAssignment(op: string) {
    |op| == 1 && op[0] == '='
  }

  /** No assignment anywhere in e. */
  predicate AssignmentFree(e: Expr) {
    match e
    case Literal(_) => true
    case Variable(_) => true
    case Binary(l, op, r) => !IsAssignment(op.lexeme) && AssignmentFree(l) && AssignmentFree(r)
  }

  /** The operator text each operator opcode stands for. */
  function OperatorText(c: OpCode): string
    requires IsOperator(c)
  {
    match c
    case Add => "+"
    case Sub => "-"
    case Mul => "*"
    case Div => "/"
    case Equal => "=="
    case NotEqual => "!="
    case Less => "<"
    case LessEqual => "<="
    case Greater => ">"
    case GreaterEqual => ">="
  }

  /** OperatorCode and OperatorText are inverse: each of the ten operator
      texts has its own opcode, and no other text has one. */
  lemma OperatorCodeText(op: string, c: OpCode)
    ensures OperatorCode(op) == Some(c) <==> IsOperator(c) && OperatorText(c) == op
  {
  }

  /** The operand naming a variable: the character code of the first
      character of its name, or the terminator 0 for an empty name. */
  function VarId(name: Lexer.Token): int {
    if |name.lexeme| == 0 then 0 else name.lexeme[0] as int
  }

  // ---------------------------------------------------------------------
  // Emission
  // ---------------------------------------------------------------------

  function Emit(bc: Bytecode, op: OpCode, operand: int): (r: Bytecode)
    ensures |r.code| == |bc.code| + 1
  {
    bc.(code := bc.code + [Instruction(op, operand)])
  }

  /** `add_constant`: append the value and answer its index. The table
      keeps duplicates. */
  function AddConstant(bc: Bytecode, value: int): (r: (Bytecode, nat))
    ensures r.0.code == bc.code
    ensures r.1 == |bc.constants| && r.0.constants == bc.constants + [value]
  {
    (bc.(constants := bc.constants + [value]), |bc.constants|)
  }

  /** Set the operand of the instruction at index `at`. */
  function Patch(bc: Bytecode, at: nat, target: int): (r: Bytecode)
    requires at < |bc.code|
    ensures |r.code| == |bc.code| && r.constants == bc.constants
  {
    bc.(code := bc.code[at := Instruction(bc.code[at].op, target)])
  }

  // ---------------------------------------------------------------------
  // Compilation
  // ---------------------------------------------------------------------

  /** `compile_expr`: code that leaves the value of e on the stack, or for
      an assignment stores it. An assignment compiles only its right side
      followed by SET_VAR; any other binary node compiles both sides, then
      checks the operator. */
  function CompileExpr(bc: Bytecode, e: Expr): (r: Result<Bytecode, CompileError>)
    ensures r.Ok? ==> |r.value.code| > |bc.code|
    decreases e
  {
    match e
    case Literal(t) =>
      var (bc1, idx) := AddConstant(bc, Atoi(t.lexeme));
      Ok(Emit(bc1, Const, idx))
    case Variable(t) => Ok(Emit(bc, LoadVar, VarId(t)))
    case Binary(l, op, rhs) =>
      if IsAssignment(op.lexeme) then
        if !l.Variable? then Err(InvalidAssignmentTarget)
        else
          var bc1 :- CompileExpr(bc, rhs);
          Ok(Emit(bc1, SetVar, VarId(l.name)))
      else
        var bc1 :- CompileExpr(bc, l);
        var bc2 :- CompileExpr(bc1, rhs);
        match OperatorCode(op.lexeme)
        case Some(c) =>
          Ok(Emit(bc2, c, 0))
        case None => Err(UnknownOperator(op.lexeme))
  }

  /** `compile_stmt`. `let` defines, `yap` prints, and an expression
      statement is its expression's code with nothing to pop the value it
      leaves. `if` and `while` emit JUMP_IF_FALSE (and JUMP) with
      placeholder targets and patch them once the branch is compiled. */
  function CompileStmt(bc: Bytecode, s: Stmt): (r: Result<Bytecode, CompileError>)
    ensures r.Ok? ==> |r.value.code| >= |bc.code|
    decreases s
  {
    match s
    case LetStmt(name, init) =>
      var bc1 :- CompileExpr(bc, init);
      Ok(Emit(bc1, DefineVar, VarId(name)))
    case YapStmt(e) =>
      var bc1 :- CompileExpr(bc, e);
      Ok(Emit(bc1, Print, 0))
    case ExprStmt(e) => CompileExpr(bc, e)
    case IfStmt(c, t, f) =>
      var bc1 :- CompileExpr(bc, c);
      var jumpIfFalse := |bc1.code|;
      var bc2 := Emit(bc1, JumpIfFalse, 0);
      var bc3 :- CompileStmt(bc2, t);
      if f.Some? then
        var jumpEnd := |bc3.code|;
        var bc4 := Emit(bc3, Jump, 0);
        var bc5 := Patch(bc4, jumpIfFalse, |bc4.code|);
        var bc6 :- CompileStmt(bc5, f.value);
        Ok(Patch(bc6, jumpEnd, |bc6.code|))
      else
        Ok(Patch(bc3, jumpIfFalse, |bc3.code|))
    case WhileStmt(c, body) =>
      var loopStart := |bc.code|;
      var bc1 :- CompileExpr(bc, c);
      var jumpOut := |bc1.code|;
      var bc2 := Emit(bc1, JumpIfFalse, 0);
      var bc3 :- CompileStmt(bc2, body);
      var bc4 := Emit(bc3, Jump, loopStart);
      Ok(Patch(bc4, jumpOut, |bc4.code|))
    case BlockStmt(ss) => CompileBlock(bc, ss)
  }

  /** The statements of a block or program, in order. */
  function CompileBlock(bc: Bytecode, ss: seq<Stmt>): (r: Result<Bytecode, CompileError>)
    ensures r.Ok? ==> |r.value.code| >= |bc.code|
    decreases ss
  {
    if |ss| == 0 then Ok(bc)
    else
      var bc1 :- CompileStmt(bc, ss[0]);
      CompileBlock(bc1, ss[1..])
  }

  /** `compile`: the program's statements from an empty code array and
      constant table, then HALT. */
  function Compile(ss: seq<Stmt>): (r: Result<Bytecode, CompileError>)
    ensures r.Ok? ==> |r.value.code| > 0 && r.value.code[|r.value.code| - 1] == Instruction(Halt, 0)
  {
    var bc :- CompileBlock(Bytecode([], []), ss);
    Ok(Emit(bc, Halt, 0))
  }
}
