/** A reference definition of what the compiler produces, written without
    the growing code array or the back-patching: the code of a statement
    is a function of the statement, the index it starts at, and the number
    of constants before it. The compiler's first error, when it has one,
    is defined the same way. `CompileLayout` shows the compiler agrees. */
module Layout {
  import opened Results
  import Lexer
  import opened Ast
  import opened Values
  import opened Compiler

  // ---------------------------------------------------------------------
  // Errors
  // ---------------------------------------------------------------------

  /** The first of two possible errors. */
  function Or(a: Option<CompileError>, b: Option<CompileError>): Option<CompileError> {
    if a.Some? then a else b
  }

  /** The error compiling e stops at, in the order the compiler meets
      them: an assignment's target is checked before its right side is
      compiled, an operator after both of its operands. */
  function FirstError(e: Expr): Option<CompileError> {
    match e
    case Literal(_) => None
    case Variable(_) => None
    case Binary(l, op, r) =>
      if IsAssignment(op.lexeme) then
        if l.Variable? then FirstError(r) else Some(InvalidAssignmentTarget)
      else
        Or(FirstError(l), Or(FirstError(r),
          if OperatorCode(op.lexeme).Some? then None else Some(UnknownOperator(op.lexeme))))
  }

  function StmtFirstError(s: Stmt): Option<CompileError> {
    match s
    case LetStmt(_, init) => FirstError(init)
    case YapStmt(e) => FirstError(e)
    case ExprStmt(e) => FirstError(e)
    case IfStmt(c, t, f) =>
      Or(FirstError(c), Or(StmtFirstError(t), if f.Some? then StmtFirstError(f.value) else None))
    case WhileStmt(c, body) => Or(FirstError(c), StmtFirstError(body))
    case BlockStmt(ss) => BlockFirstError(ss)
  }

  function BlockFirstError(ss: seq<Stmt>): Option<CompileError> {
    if |ss| == 0 then None else Or(StmtFirstError(ss[0]), BlockFirstError(ss[1..]))
  }

  predicate Compilable(e: Expr) {
    FirstError(e).None?
  }

  predicate CompilableStmt(s: Stmt) {
    StmtFirstError(s).None?
  }

  predicate CompilableBlock(ss: seq<Stmt>) {
    BlockFirstError(ss).None?
  }

  // ---------------------------------------------------------------------
  // Constants
  // ---------------------------------------------------------------------

  /** The literal values of e in the order the compiler adds them to the
      constant table; an assignment's target contributes none. */
  function Literals(e: Expr): seq<int> {
    match e
    case Literal(t) => [Atoi(t.lexeme)]
    case Variable(_) => []
    case Binary(l, op, r) =>
      if IsAssignment(op.lexeme) then Literals(r) else Literals(l) + Literals(r)
  }

  function StmtLiterals(s: Stmt): seq<int> {
    match s
    case LetStmt(_, init) => Literals(init)
    case YapStmt(e) => Literals(e)
    case ExprStmt(e) => Literals(e)
    case IfStmt(c, t, f) =>
      Literals(c) + StmtLiterals(t) + (if f.Some? then StmtLiterals(f.value) else [])
    case WhileStmt(c, body) => Literals(c) + StmtLiterals(body)
    case BlockStmt(ss) => BlockLiterals(ss)
  }

  function BlockLiterals(ss: seq<Stmt>): seq<int> {
    if |ss| == 0 then [] else StmtLiterals(ss[0]) + BlockLiterals(ss[1..])
  }

  /** How many literals e adds; `LiteralsSize` shows it is |Literals(e)|. */
  function LiteralCount(e: Expr): nat {
    match e
    case Literal(_) => 1
    case Variable(_) => 0
    case Binary(l, op, r) =>
      if IsAssignment(op.lexeme) then LiteralCount(r) else LiteralCount(l) + LiteralCount(r)
  }

  function StmtLiteralCount(s: Stmt): nat {
    match s
    case LetStmt(_, init) => LiteralCount(init)
    case YapStmt(e) => LiteralCount(e)
    case ExprStmt(e) => LiteralCount(e)
    case IfStmt(c, t, f) =>
      LiteralCount(c) + StmtLiteralCount(t) + (if f.Some? then StmtLiteralCount(f.value) else 0)
    case WhileStmt(c, body) => LiteralCount(c) + StmtLiteralCount(body)
    case BlockStmt(ss) => BlockLiteralCount(ss)
  }

  function BlockLiteralCount(ss: seq<Stmt>): nat {
    if |ss| == 0 then 0 else StmtLiteralCount(ss[0]) + BlockLiteralCount(ss[1..])
  }

  // ---------------------------------------------------------------------
  // Code
  // ---------------------------------------------------------------------

  /** The opcode of a known operator; HALT stands in for the unknown ones,
      which the compiler rejects. */
  function OperatorOpcode(op: string): OpCode {
    match OperatorCode(op)
    case Some(c) => c
    case None => Halt
  }

  /** The variable an assignment stores to; 0 stands in for a target that
      is not a variable, which the compiler rejects. */
  function TargetId(target: Expr): int {
    if target.Variable? then VarId(target.name) else 0
  }

  /** The number of instructions of e: one per leaf and per operator. */
  function ExprSize(e: Expr): nat {
    match e
    case Literal(_) => 1
    case Variable(_) => 1
    case Binary(l, op, r) =>
      if IsAssignment(op.lexeme) then ExprSize(r) + 1 else ExprSize(l) + ExprSize(r) + 1
  }

  function StmtSize(s: Stmt): nat {
    match s
    case LetStmt(_, init) => ExprSize(init) + 1
    case YapStmt(e) => ExprSize(e) + 1
    case ExprStmt(e) => ExprSize(e)
    case IfStmt(c, t, f) =>
      ExprSize(c) + 1 + StmtSize(t) + (if f.Some? then 1 + StmtSize(f.value) else 0)
    case WhileStmt(c, body) => ExprSize(c) + 1 + StmtSize(body) + 1
    case BlockStmt(ss) => BlockSize(ss)
  }

  function BlockSize(ss: seq<Stmt>): nat {
    if |ss| == 0 then 0 else StmtSize(ss[0]) + BlockSize(ss[1..])
  }

  /** The code of e when its first literal gets constant index cbase. It
      is the compiler's output only for compilable expressions; the
      stand-ins above fill the other cases. */
  function ExprCode(e: Expr, cbase: nat): seq<Instruction> {
    match e
    case Literal(_) => [Instruction(Const, cbase)]
    case Variable(t) => [Instruction(LoadVar, VarId(t))]
    case Binary(l, op, r) =>
      if IsAssignment(op.lexeme) then ExprCode(r, cbase) + [Instruction(SetVar, TargetId(l))]
      else ExprCode(l, cbase) + ExprCode(r, cbase + LiteralCount(l)) + [Instruction(OperatorOpcode(op.lexeme), 0)]
  }

  /** The code of s when it starts at index `at` and its first literal gets
      constant index cbase. A conditional jump skips to just past the then
      branch (and its closing JUMP); a loop ends with a jump back to its
      condition, which exits to just past that jump. */
  function StmtCode(s: Stmt, at: nat, cbase: nat): seq<Instruction>
    decreases s
  {
    match s
    case LetStmt(name, init) => ExprCode(init, cbase) + [Instruction(DefineVar, VarId(name))]
    case YapStmt(e) => ExprCode(e, cbase) + [Instruction(Print, 0)]
    case ExprStmt(e) => ExprCode(e, cbase)
    case IfStmt(c, t, f) =>
      var thenAt := at + ExprSize(c) + 1;
      var thenBase := cbase + LiteralCount(c);
      if f.None? then
        ExprCode(c, cbase) + [Instruction(JumpIfFalse, thenAt + StmtSize(t))] + StmtCode(t, thenAt, thenBase)
      else
        var elseAt := thenAt + StmtSize(t) + 1;
        ExprCode(c, cbase) + [Instruction(JumpIfFalse, elseAt)] + StmtCode(t, thenAt, thenBase)
          + [Instruction(Jump, elseAt + StmtSize(f.value))]
          + StmtCode(f.value, elseAt, thenBase + StmtLiteralCount(t))
    case WhileStmt(c, body) =>
      var bodyAt := at + ExprSize(c) + 1;
      ExprCode(c, cbase) + [Instruction(JumpIfFalse, bodyAt + StmtSize(body) + 1)]
        + StmtCode(body, bodyAt, cbase + LiteralCount(c)) + [Instruction(Jump, at)]
    case BlockStmt(ss) => BlockCode(ss, at, cbase)
  }

  function BlockCode(ss: seq<Stmt>, at: nat, cbase: nat): seq<Instruction>
    decreases ss
  {
    if |ss| == 0 then []
    else StmtCode(ss[0], at, cbase) + BlockCode(ss[1..], at + StmtSize(ss[0]), cbase + StmtLiteralCount(ss[0]))
  }

  /** The whole program: its statements from index 0, then HALT. */
  function ProgramCode(ss: seq<Stmt>): seq<Instruction> {
    BlockCode(ss, 0, 0) + [Instruction(Halt, 0)]
  }

  /** bc with code and constants appended. */
  function Appended(bc: Bytecode, code: seq<Instruction>, lits: seq<int>): Bytecode {
    Bytecode(bc.code + code, bc.constants + lits)
  }

  // ---------------------------------------------------------------------
  // Sizes
  // ---------------------------------------------------------------------

  lemma {:induction false} ExprCodeSize(e: Expr, cbase: nat)
    ensures |ExprCode(e, cbase)| == ExprSize(e)
    decreases e
  {
    match e
    case Literal(_) =>
    case Variable(_) =>
    case Binary(l, op, r) =>
      if IsAssignment(op.lexeme) {
        ExprCodeSize(r, cbase);
      } else {
        ExprCodeSize(l, cbase);
        ExprCodeSize(r, cbase + LiteralCount(l));
      }
  }

  lemma {:induction false} LiteralsSize(e: Expr)
    ensures |Literals(e)| == LiteralCount(e)
    decreases e
  {
    match e
    case Literal(_) =>
    case Variable(_) =>
    case Binary(l, op, r) =>
      LiteralsSize(l);
      LiteralsSize(r);
  }

  lemma {:induction false} StmtCodeSize(s: Stmt, at: nat, cbase: nat)
    ensures |StmtCode(s, at, cbase)| == StmtSize(s)
    decreases s, 1
  {
    match s
    case LetStmt(_, init) => ExprCodeSize(init, cbase);
    case YapStmt(e) => ExprCodeSize(e, cbase);
    case ExprStmt(e) => ExprCodeSize(e, cbase);
    case IfStmt(c, t, f) =>
      hide StmtCode;
      ExprCodeSize(c, cbase);
      var thenAt, thenBase := at + ExprSize(c) + 1, cbase + LiteralCount(c);
      StmtCodeSize(t, thenAt, thenBase);
      if f.Some? {
        var elseAt := thenAt + StmtSize(t) + 1;
        StmtCodeSize(f.value, elseAt, thenBase + StmtLiteralCount(t));
        IfElseCode(c, t, f.value, at, cbase, thenAt, thenBase, elseAt, thenBase + StmtLiteralCount(t));
      } else {
        IfNoElseCode(c, t, at, cbase, thenAt, thenBase);
      }
    case WhileStmt(c, body) =>
      hide StmtCode;
      ExprCodeSize(c, cbase);
      StmtCodeSize(body, at + ExprSize(c) + 1, cbase + LiteralCount(c));
      WhileCode(c, body, at, cbase, at + ExprSize(c) + 1, cbase + LiteralCount(c));
    case BlockStmt(ss) => BlockCodeSize(ss, at, cbase);
  }

  lemma {:induction false} BlockCodeSize(ss: seq<Stmt>, at: nat, cbase: nat)
    ensures |BlockCode(ss, at, cbase)| == BlockSize(ss)
    decreases ss, 0
  {
    if |ss| > 0 {
      StmtCodeSize(ss[0], at, cbase);
      BlockCodeSize(ss[1..], at + StmtSize(ss[0]), cbase + StmtLiteralCount(ss[0]));
    }
  }

  lemma {:induction false} StmtLiteralsSize(s: Stmt)
    ensures |StmtLiterals(s)| == StmtLiteralCount(s)
    decreases s, 1
  {
    match s
    case LetStmt(_, init) => LiteralsSize(init);
    case YapStmt(e) => LiteralsSize(e);
    case ExprStmt(e) => LiteralsSize(e);
    case IfStmt(c, t, f) =>
      LiteralsSize(c);
      StmtLiteralsSize(t);
      if f.Some? {
        StmtLiteralsSize(f.value);
      }
    case WhileStmt(c, body) =>
      LiteralsSize(c);
      StmtLiteralsSize(body);
    case BlockStmt(ss) => BlockLiteralsSize(ss);
  }

  lemma {:induction false} BlockLiteralsSize(ss: seq<Stmt>)
    ensures |BlockLiterals(ss)| == BlockLiteralCount(ss)
    decreases ss, 0
  {
    if |ss| > 0 {
      StmtLiteralsSize(ss[0]);
      BlockLiteralsSize(ss[1..]);
    }
  }

  // ---------------------------------------------------------------------
  // Sequence steps
  // ---------------------------------------------------------------------

  lemma AppendedTwice(bc: Bytecode, c1: seq<Instruction>, l1: seq<int>, c2: seq<Instruction>, l2: seq<int>)
    ensures Appended(Appended(bc, c1, l1), c2, l2) == Appended(bc, c1 + c2, l1 + l2)
  {
    assert bc.code + c1 + c2 == bc.code + (c1 + c2);
    assert bc.constants + l1 + l2 == bc.constants + (l1 + l2);
  }

  lemma EmitAppended(bc: Bytecode, c: seq<Instruction>, l: seq<int>, op: OpCode, operand: int)
    ensures Emit(Appended(bc, c, l), op, operand) == Appended(bc, c + [Instruction(op, operand)], l)
  {
    assert bc.code + c + [Instruction(op, operand)] == bc.code + (c + [Instruction(op, operand)]);
  }

  /** Setting the operand of a placeholder instruction inside appended code. */
  lemma PatchAppended(bc: Bytecode, pre: seq<Instruction>, op: OpCode, post: seq<Instruction>,
                      lits: seq<int>, at: nat, target: int)
    requires at == |bc.code| + |pre|
    ensures at < |Appended(bc, pre + [Instruction(op, 0)] + post, lits).code|
    ensures Patch(Appended(bc, pre + [Instruction(op, 0)] + post, lits), at, target)
         == Appended(bc, pre + [Instruction(op, target)] + post, lits)
  {
    var x := Appended(bc, pre + [Instruction(op, 0)] + post, lits);
    assert x.code == (bc.code + pre) + [Instruction(op, 0)] + post;
    var y := Patch(x, at, target);
    assert y.code == (bc.code + pre) + [Instruction(op, target)] + post;
  }

  // ---------------------------------------------------------------------
  // Expressions
  // ---------------------------------------------------------------------

  /** The compiler's result for e from bc, by the reference definitions. */
  predicate ExprLaidOut(bc: Bytecode, e: Expr) {
    && (CompileExpr(bc, e).Ok? <==> Compilable(e))
    && (CompileExpr(bc, e).Err? ==> CompileExpr(bc, e).error == FirstError(e).value)
    && (Compilable(e) ==>
          CompileExpr(bc, e).value == Appended(bc, ExprCode(e, |bc.constants|), Literals(e)))
  }

  /** A compiler result that agrees with the reference definitions. */
  lemma ExprLaidOutOk(bc: Bytecode, e: Expr, res: Bytecode)
    requires CompileExpr(bc, e) == Ok(res) && Compilable(e)
    requires res == Appended(bc, ExprCode(e, |bc.constants|), Literals(e))
    ensures ExprLaidOut(bc, e)
  {
  }

  /** A compiler error that is the first error the reference finds. */
  lemma ExprLaidOutErr(bc: Bytecode, e: Expr, err: CompileError)
    requires CompileExpr(bc, e) == Err(err) && FirstError(e) == Some(err)
    ensures ExprLaidOut(bc, e)
  {
  }

  lemma {:induction false} CompileExprLayout(bc: Bytecode, e: Expr)
    ensures ExprLaidOut(bc, e)
    decreases e
  {
    match e
    case Literal(_) =>
    case Variable(_) =>
    case Binary(l, op, r) =>
      if IsAssignment(op.lexeme) {
        CompileExprLayout(bc, r);
        AssignmentLayout(bc, l, op, r);
      } else {
        CompileExprLayout(bc, l);
        var bl := CompileExpr(bc, l);
        if bl.Err? {
          OperandFails(bc, l, op, r);
        } else {
          CompileExprLayout(bl.value, r);
          var br := CompileExpr(bl.value, r);
          if br.Err? {
            RightOperandFails(bc, l, op, r, bl.value);
          } else if OperatorCode(op.lexeme).None? {
            OperatorUnknown(bc, l, op, r, bl.value, br.value);
          } else {
            ExprPlaced(bc, l, bl.value);
            OperatorKnown(bc, l, op, r, bl.value, br.value, |bl.value.constants|);
          }
        }
      }
  }

  /** An assignment: its target is checked first, then its value is
      compiled and stored. */
  lemma AssignmentLayout(bc: Bytecode, l: Expr, op: Lexer.Token, r: Expr)
    requires IsAssignment(op.lexeme) && ExprLaidOut(bc, r)
    ensures ExprLaidOut(bc, Binary(l, op, r))
  {
  }

  lemma OperandFails(bc: Bytecode, l: Expr, op: Lexer.Token, r: Expr)
    requires !IsAssignment(op.lexeme)
    requires ExprLaidOut(bc, l) && CompileExpr(bc, l).Err?
    ensures ExprLaidOut(bc, Binary(l, op, r))
  {
    assert CompileExpr(bc, Binary(l, op, r)) == CompileExpr(bc, l);
  }

  lemma RightOperandFails(bc: Bytecode, l: Expr, op: Lexer.Token, r: Expr, bl: Bytecode)
    requires !IsAssignment(op.lexeme)
    requires Compilable(l) && CompileExpr(bc, l) == Ok(bl)
    requires ExprLaidOut(bl, r) && CompileExpr(bl, r).Err?
    ensures ExprLaidOut(bc, Binary(l, op, r))
  {
    assert CompileExpr(bc, Binary(l, op, r)) == CompileExpr(bl, r);
  }

  lemma OperatorUnknown(bc: Bytecode, l: Expr, op: Lexer.Token, r: Expr, bl: Bytecode, br: Bytecode)
    requires !IsAssignment(op.lexeme) && OperatorCode(op.lexeme).None?
    requires Compilable(l) && CompileExpr(bc, l) == Ok(bl)
    requires Compilable(r) && CompileExpr(bl, r) == Ok(br)
    ensures ExprLaidOut(bc, Binary(l, op, r))
  {
    assert CompileExpr(bc, Binary(l, op, r)) == Err(UnknownOperator(op.lexeme));
  }

  /** A binary operator node: both operands' code, then the operator. */
  lemma OperatorKnown(bc: Bytecode, l: Expr, op: Lexer.Token, r: Expr, bl: Bytecode, br: Bytecode, rb: nat)
    requires !IsAssignment(op.lexeme) && OperatorCode(op.lexeme).Some?
    requires rb == |bl.constants| == |bc.constants| + LiteralCount(l)
    requires Compilable(l) && CompileExpr(bc, l) == Ok(bl)
    requires bl == Appended(bc, ExprCode(l, |bc.constants|), Literals(l))
    requires Compilable(r) && CompileExpr(bl, r) == Ok(br)
    requires br == Appended(bl, ExprCode(r, rb), Literals(r))
    ensures ExprLaidOut(bc, Binary(l, op, r))
  {
    var e := Binary(l, op, r);
    var res := Emit(br, OperatorOpcode(op.lexeme), 0);
    CompileOperator(bc, l, op, r, bl, br);
    OperatorCompilable(l, op, r);
    OperatorAppended(bc, l, op, r, bl, br, rb);
    ExprLaidOutOk(bc, e, res);
  }

  lemma OperatorCompilable(l: Expr, op: Lexer.Token, r: Expr)
    requires !IsAssignment(op.lexeme) && OperatorCode(op.lexeme).Some?
    requires Compilable(l) && Compilable(r)
    ensures Compilable(Binary(l, op, r))
  {
  }

  /** The compiler's step for a known operator. */
  lemma CompileOperator(bc: Bytecode, l: Expr, op: Lexer.Token, r: Expr, bl: Bytecode, br: Bytecode)
    requires !IsAssignment(op.lexeme) && OperatorCode(op.lexeme).Some?
    requires CompileExpr(bc, l) == Ok(bl) && CompileExpr(bl, r) == Ok(br)
    ensures CompileExpr(bc, Binary(l, op, r)) == Ok(Emit(br, OperatorOpcode(op.lexeme), 0))
  {
  }

  /** Where the code and constants end after an expression's are added. */
  lemma ExprPlaced(bc: Bytecode, e: Expr, after: Bytecode)
    requires after == Appended(bc, ExprCode(e, |bc.constants|), Literals(e))
    ensures |after.code| == |bc.code| + ExprSize(e)
    ensures |after.constants| == |bc.constants| + LiteralCount(e)
  {
    ExprCodeSize(e, |bc.constants|);
    LiteralsSize(e);
  }

  lemma OperatorAppended(bc: Bytecode, l: Expr, op: Lexer.Token, r: Expr, bl: Bytecode, br: Bytecode, rb: nat)
    requires !IsAssignment(op.lexeme)
    requires rb == |bc.constants| + LiteralCount(l)
    requires bl == Appended(bc, ExprCode(l, |bc.constants|), Literals(l))
    requires br == Appended(bl, ExprCode(r, rb), Literals(r))
    ensures Emit(br, OperatorOpcode(op.lexeme), 0)
         == Appended(bc, ExprCode(Binary(l, op, r), |bc.constants|), Literals(Binary(l, op, r)))
  {
    var cb := |bc.constants|;
    EmitAppendedTwice(bc, ExprCode(l, cb), Literals(l), ExprCode(r, rb), Literals(r),
      Instruction(OperatorOpcode(op.lexeme), 0));
    ExprCodeOperator(l, op, r, cb);
  }

  /** Two appends and an emit are one append. */
  lemma EmitAppendedTwice(bc: Bytecode, c1: seq<Instruction>, l1: seq<int>, c2: seq<Instruction>, l2: seq<int>,
                          x: Instruction)
    ensures Emit(Appended(Appended(bc, c1, l1), c2, l2), x.op, x.operand)
         == Appended(bc, c1 + c2 + [x], l1 + l2)
  {
    AppendedTwice(bc, c1, l1, c2, l2);
    EmitAppended(bc, c1 + c2, l1 + l2, x.op, x.operand);
  }

  /** The code and literals of an operator node, one step unfolded. */
  lemma {:induction false} ExprCodeOperator(l: Expr, op: Lexer.Token, r: Expr, cb: nat)
    requires !IsAssignment(op.lexeme)
    ensures ExprCode(Binary(l, op, r), cb) ==
      ExprCode(l, cb) + ExprCode(r, cb + LiteralCount(l)) + [Instruction(OperatorOpcode(op.lexeme), 0)]
    ensures Literals(Binary(l, op, r)) == Literals(l) + Literals(r)
  {
  }

  // ---------------------------------------------------------------------
  // Statements
  // ---------------------------------------------------------------------

  /** The compiler's result for s from bc, by the reference definitions. */
  predicate StmtLaidOut(bc: Bytecode, s: Stmt) {
    && (CompileStmt(bc, s).Ok? <==> CompilableStmt(s))
    && (CompileStmt(bc, s).Err? ==> CompileStmt(bc, s).error == StmtFirstError(s).value)
    && (CompilableStmt(s) ==>
          CompileStmt(bc, s).value == Appended(bc, StmtCode(s, |bc.code|, |bc.constants|), StmtLiterals(s)))
  }

  /** The compiler's result for a statement sequence from bc. */
  predicate BlockLaidOut(bc: Bytecode, ss: seq<Stmt>) {
    && (CompileBlock(bc, ss).Ok? <==> CompilableBlock(ss))
    && (CompileBlock(bc, ss).Err? ==> CompileBlock(bc, ss).error == BlockFirstError(ss).value)
    && (CompilableBlock(ss) ==>
          CompileBlock(bc, ss).value == Appended(bc, BlockCode(ss, |bc.code|, |bc.constants|), BlockLiterals(ss)))
  }

  lemma StmtLaidOutOk(bc: Bytecode, s: Stmt, res: Bytecode)
    requires CompileStmt(bc, s) == Ok(res) && CompilableStmt(s)
    requires res == Appended(bc, StmtCode(s, |bc.code|, |bc.constants|), StmtLiterals(s))
    ensures StmtLaidOut(bc, s)
  {
  }

  lemma StmtLaidOutErr(bc: Bytecode, s: Stmt, err: CompileError)
    requires CompileStmt(bc, s) == Err(err) && StmtFirstError(s) == Some(err)
    ensures StmtLaidOut(bc, s)
  {
  }

  /** Where the code and constants end after a statement's are added. */
  lemma StmtPlaced(bc: Bytecode, s: Stmt, after: Bytecode)
    requires after == Appended(bc, StmtCode(s, |bc.code|, |bc.constants|), StmtLiterals(s))
    ensures |after.code| == |bc.code| + StmtSize(s)
    ensures |after.constants| == |bc.constants| + StmtLiteralCount(s)
  {
    StmtCodeSize(s, |bc.code|, |bc.constants|);
    StmtLiteralsSize(s);
  }

  lemma {:induction false} CompileStmtLayout(bc: Bytecode, s: Stmt)
    ensures StmtLaidOut(bc, s)
    decreases s, 1
  {
    match s
    case LetStmt(name, init) =>
      CompileExprLayout(bc, init);
      ExprThenLayout(bc, s, init, Instruction(DefineVar, VarId(name)));
    case YapStmt(e) =>
      CompileExprLayout(bc, e);
      ExprThenLayout(bc, s, e, Instruction(Print, 0));
    case ExprStmt(e) =>
      CompileExprLayout(bc, e);
      ExprStmtLayout(bc, e);
    case IfStmt(c, t, f) =>
      CompileExprLayout(bc, c);
      var b1 := CompileExpr(bc, c);
      if b1.Err? {
        IfCondFails(bc, c, t, f);
      } else {
        ExprPlaced(bc, c, b1.value);
        var b2 := Emit(b1.value, JumpIfFalse, 0);
        CompileStmtLayout(b2, t);
        var b3 := CompileStmt(b2, t);
        if b3.Err? {
          IfThenFails(bc, c, t, f, b1.value);
        } else if f.None? {
          IfNoElseLayout(bc, c, t, b1.value, b3.value, |b2.code|, |b2.constants|);
        } else {
          StmtPlaced(b2, t, b3.value);
          var b5 := Patch(Emit(b3.value, Jump, 0), |b1.value.code|, |b3.value.code| + 1);
          CompileStmtLayout(b5, f.value);
          var b6 := CompileStmt(b5, f.value);
          if b6.Err? {
            IfElseFails(bc, c, t, f.value, b1.value, b3.value);
          } else {
            IfElseLayout(bc, c, t, f.value, b1.value, b3.value, b6.value,
              |b2.code|, |b2.constants|, |b5.code|, |b5.constants|);
          }
        }
      }
    case WhileStmt(c, body) =>
      CompileExprLayout(bc, c);
      var b1 := CompileExpr(bc, c);
      if b1.Err? {
        WhileCondFails(bc, c, body);
      } else {
        ExprPlaced(bc, c, b1.value);
        var b2 := Emit(b1.value, JumpIfFalse, 0);
        CompileStmtLayout(b2, body);
        var b3 := CompileStmt(b2, body);
        if b3.Err? {
          WhileBodyFails(bc, c, body, b1.value);
        } else {
          WhileLayout(bc, c, body, b1.value, b3.value, |b2.code|, |b2.constants|);
        }
      }
    case BlockStmt(ss) =>
      CompileBlockLayout(bc, ss);
      BlockStmtLayout(bc, ss);
  }

  lemma {:induction false} CompileBlockLayout(bc: Bytecode, ss: seq<Stmt>)
    ensures BlockLaidOut(bc, ss)
    decreases ss, 0
  {
    if |ss| > 0 {
      CompileStmtLayout(bc, ss[0]);
      var b1 := CompileStmt(bc, ss[0]);
      if b1.Err? {
        BlockHeadFails(bc, ss);
      } else {
        StmtPlaced(bc, ss[0], b1.value);
        CompileBlockLayout(b1.value, ss[1..]);
        BlockConsLayout(bc, ss, b1.value, |b1.value.code|, |b1.value.constants|);
      }
    }
  }

  /** `compile` succeeds exactly on the programs without an error; it then
      answers the reference code followed by HALT and the literals in
      source order, and otherwise the first error. */
  lemma CompileLayout(ss: seq<Stmt>)
    ensures Compile(ss).Ok? <==> CompilableBlock(ss)
    ensures Compile(ss).Err? ==> BlockFirstError(ss) == Some(Compile(ss).error)
    ensures Compile(ss).Ok? ==> Compile(ss).value == Bytecode(ProgramCode(ss), BlockLiterals(ss))
  {
    var empty := Bytecode([], []);
    CompileBlockLayout(empty, ss);
    if CompilableBlock(ss) {
      var body := BlockCode(ss, 0, 0);
      assert CompileBlock(empty, ss).value == Bytecode(body, BlockLiterals(ss)) by {
        assert [] + body == body;
        assert [] + BlockLiterals(ss) == BlockLiterals(ss);
      }
    }
  }

  // Simple statements

  /** `let` and `yap`: the expression's code, then one instruction. */
  lemma ExprThenLayout(bc: Bytecode, s: Stmt, e: Expr, x: Instruction)
    requires || (s.LetStmt? && s.init == e && x == Instruction(DefineVar, VarId(s.name)))
             || (s == YapStmt(e) && x == Instruction(Print, 0))
    requires ExprLaidOut(bc, e)
    ensures StmtLaidOut(bc, s)
  {
    var r := CompileExpr(bc, e);
    if r.Err? {
      StmtLaidOutErr(bc, s, r.error);
    } else {
      EmitAppended(bc, ExprCode(e, |bc.constants|), Literals(e), x.op, x.operand);
      StmtLaidOutOk(bc, s, Emit(r.value, x.op, x.operand));
    }
  }

  lemma ExprStmtLayout(bc: Bytecode, e: Expr)
    requires ExprLaidOut(bc, e)
    ensures StmtLaidOut(bc, ExprStmt(e))
  {
  }

  lemma BlockStmtLayout(bc: Bytecode, ss: seq<Stmt>)
    requires BlockLaidOut(bc, ss)
    ensures StmtLaidOut(bc, BlockStmt(ss))
  {
  }

  // Conditionals

  lemma IfCondFails(bc: Bytecode, c: Expr, t: Stmt, f: Option<Stmt>)
    requires ExprLaidOut(bc, c) && CompileExpr(bc, c).Err?
    ensures StmtLaidOut(bc, IfStmt(c, t, f))
  {
    StmtLaidOutErr(bc, IfStmt(c, t, f), CompileExpr(bc, c).error);
  }

  lemma IfThenFails(bc: Bytecode, c: Expr, t: Stmt, f: Option<Stmt>, b1: Bytecode)
    requires Compilable(c) && CompileExpr(bc, c) == Ok(b1)
    requires StmtLaidOut(Emit(b1, JumpIfFalse, 0), t) && CompileStmt(Emit(b1, JumpIfFalse, 0), t).Err?
    ensures StmtLaidOut(bc, IfStmt(c, t, f))
  {
    StmtLaidOutErr(bc, IfStmt(c, t, f), CompileStmt(Emit(b1, JumpIfFalse, 0), t).error);
  }

  lemma IfElseFails(bc: Bytecode, c: Expr, t: Stmt, f: Stmt, b1: Bytecode, b3: Bytecode)
    requires Compilable(c) && CompileExpr(bc, c) == Ok(b1)
    requires CompilableStmt(t) && CompileStmt(Emit(b1, JumpIfFalse, 0), t) == Ok(b3)
    requires |b1.code| < |b3.code|
    requires var b5 := Patch(Emit(b3, Jump, 0), |b1.code|, |b3.code| + 1);
      StmtLaidOut(b5, f) && CompileStmt(b5, f).Err?
    ensures StmtLaidOut(bc, IfStmt(c, t, Some(f)))
  {
    var b5 := Patch(Emit(b3, Jump, 0), |b1.code|, |b3.code| + 1);
    StmtLaidOutErr(bc, IfStmt(c, t, Some(f)), CompileStmt(b5, f).error);
  }

  lemma IfNoElseLayout(bc: Bytecode, c: Expr, t: Stmt, b1: Bytecode, b3: Bytecode, thenAt: nat, thenBase: nat)
    requires Compilable(c) && CompileExpr(bc, c) == Ok(b1)
    requires b1 == Appended(bc, ExprCode(c, |bc.constants|), Literals(c))
    requires thenAt == |bc.code| + ExprSize(c) + 1 && thenBase == |bc.constants| + LiteralCount(c)
    requires CompilableStmt(t) && CompileStmt(Emit(b1, JumpIfFalse, 0), t) == Ok(b3)
    requires b3 == Appended(Emit(b1, JumpIfFalse, 0), StmtCode(t, thenAt, thenBase), StmtLiterals(t))
    ensures StmtLaidOut(bc, IfStmt(c, t, None))
  {
    hide *;
    var s := IfStmt(c, t, None);
    var at, cb := |bc.code|, |bc.constants|;
    ExprCodeSize(c, cb);
    StmtCodeSize(t, thenAt, thenBase);
    IfNoElseCode(c, t, at, cb, thenAt, thenBase);
    IfNoElseSteps(bc, ExprCode(c, cb), Literals(c), StmtCode(t, thenAt, thenBase), StmtLiterals(t), b1, b3,
      thenAt + StmtSize(t), StmtCode(s, at, cb), StmtLiterals(s));
    CompileIfNoElse(bc, c, t, b1, b3);
    StmtLaidOutOk(bc, s, Patch(b3, |b1.code|, |b3.code|));
  }

  /** The patch of an `if` without else, on plain sequences. */
  lemma IfNoElseSteps(bc: Bytecode, cc: seq<Instruction>, lc: seq<int>, tc: seq<Instruction>, lt: seq<int>,
                      b1: Bytecode, b3: Bytecode, target: int, code: seq<Instruction>, lits: seq<int>)
    requires b1 == Appended(bc, cc, lc)
    requires b3 == Appended(Emit(b1, JumpIfFalse, 0), tc, lt)
    requires target == |bc.code| + |cc| + 1 + |tc|
    requires code == cc + [Instruction(JumpIfFalse, target)] + tc
    requires lits == lc + lt
    ensures |b1.code| < |b3.code|
    ensures Patch(b3, |b1.code|, |b3.code|) == Appended(bc, code, lits)
  {
    EmitThenAppend(bc, cc, lc, Instruction(JumpIfFalse, 0), tc, lt);
    PatchAppended(bc, cc, JumpIfFalse, tc, lc + lt, |b1.code|, |b3.code|);
  }

  /** The compiler's steps for an `if` without else. */
  lemma CompileIfNoElse(bc: Bytecode, c: Expr, t: Stmt, b1: Bytecode, b3: Bytecode)
    requires CompileExpr(bc, c) == Ok(b1)
    requires CompileStmt(Emit(b1, JumpIfFalse, 0), t) == Ok(b3)
    ensures |b1.code| < |b3.code|
    ensures CompileStmt(bc, IfStmt(c, t, None)) == Ok(Patch(b3, |b1.code|, |b3.code|))
    ensures CompilableStmt(IfStmt(c, t, None)) <==> Compilable(c) && CompilableStmt(t)
  {
  }

  /** The reference code of an `if` without else, one step unfolded. */
  lemma IfNoElseCode(c: Expr, t: Stmt, at: nat, cb: nat, thenAt: nat, thenBase: nat)
    requires thenAt == at + ExprSize(c) + 1 && thenBase == cb + LiteralCount(c)
    ensures StmtCode(IfStmt(c, t, None), at, cb)
         == ExprCode(c, cb) + [Instruction(JumpIfFalse, thenAt + StmtSize(t))] + StmtCode(t, thenAt, thenBase)
    ensures StmtLiterals(IfStmt(c, t, None)) == Literals(c) + StmtLiterals(t)
  {
    assert Literals(c) + StmtLiterals(t) + [] == Literals(c) + StmtLiterals(t);
  }

  lemma IfElseLayout(bc: Bytecode, c: Expr, t: Stmt, f: Stmt, b1: Bytecode, b3: Bytecode, b6: Bytecode,
                     thenAt: nat, thenBase: nat, elseAt: nat, elseBase: nat)
    requires Compilable(c) && CompileExpr(bc, c) == Ok(b1)
    requires b1 == Appended(bc, ExprCode(c, |bc.constants|), Literals(c))
    requires thenAt == |bc.code| + ExprSize(c) + 1 && thenBase == |bc.constants| + LiteralCount(c)
    requires CompilableStmt(t) && CompileStmt(Emit(b1, JumpIfFalse, 0), t) == Ok(b3)
    requires b3 == Appended(Emit(b1, JumpIfFalse, 0), StmtCode(t, thenAt, thenBase), StmtLiterals(t))
    requires elseAt == thenAt + StmtSize(t) + 1 && elseBase == thenBase + StmtLiteralCount(t)
    requires |b1.code| < |b3.code|
    requires var b5 := Patch(Emit(b3, Jump, 0), |b1.code|, elseAt);
      CompilableStmt(f) && CompileStmt(b5, f) == Ok(b6)
      && b6 == Appended(b5, StmtCode(f, elseAt, elseBase), StmtLiterals(f))
    ensures StmtLaidOut(bc, IfStmt(c, t, Some(f)))
  {
    hide *;
    var s := IfStmt(c, t, Some(f));
    IfElseValue(bc, c, t, f, b1, b3, b6, thenAt, thenBase, elseAt, elseBase);
    StmtLaidOutOk(bc, s, Appended(bc, StmtCode(s, |bc.code|, |bc.constants|), StmtLiterals(s)));
  }

  lemma IfElseValue(bc: Bytecode, c: Expr, t: Stmt, f: Stmt, b1: Bytecode, b3: Bytecode, b6: Bytecode,
                    thenAt: nat, thenBase: nat, elseAt: nat, elseBase: nat)
    requires Compilable(c) && CompileExpr(bc, c) == Ok(b1)
    requires b1 == Appended(bc, ExprCode(c, |bc.constants|), Literals(c))
    requires thenAt == |bc.code| + ExprSize(c) + 1 && thenBase == |bc.constants| + LiteralCount(c)
    requires CompilableStmt(t) && CompileStmt(Emit(b1, JumpIfFalse, 0), t) == Ok(b3)
    requires b3 == Appended(Emit(b1, JumpIfFalse, 0), StmtCode(t, thenAt, thenBase), StmtLiterals(t))
    requires elseAt == thenAt + StmtSize(t) + 1 && elseBase == thenBase + StmtLiteralCount(t)
    requires |b1.code| < |b3.code|
    requires var b5 := Patch(Emit(b3, Jump, 0), |b1.code|, elseAt);
      CompilableStmt(f) && CompileStmt(b5, f) == Ok(b6)
      && b6 == Appended(b5, StmtCode(f, elseAt, elseBase), StmtLiterals(f))
    ensures var s := IfStmt(c, t, Some(f));
      && CompilableStmt(s)
      && CompileStmt(bc, s) == Ok(Appended(bc, StmtCode(s, |bc.code|, |bc.constants|), StmtLiterals(s)))
  {
    hide *;
    IfElsePatched(bc, c, t, f, b1, b3, b6, thenAt, thenBase, elseAt, elseBase);
    CompileIfElse(bc, c, t, f, b1, b3, b6);
  }

  lemma IfElsePatched(bc: Bytecode, c: Expr, t: Stmt, f: Stmt, b1: Bytecode, b3: Bytecode, b6: Bytecode,
                      thenAt: nat, thenBase: nat, elseAt: nat, elseBase: nat)
    requires Compilable(c) && CompileExpr(bc, c) == Ok(b1)
    requires b1 == Appended(bc, ExprCode(c, |bc.constants|), Literals(c))
    requires thenAt == |bc.code| + ExprSize(c) + 1 && thenBase == |bc.constants| + LiteralCount(c)
    requires CompilableStmt(t) && CompileStmt(Emit(b1, JumpIfFalse, 0), t) == Ok(b3)
    requires b3 == Appended(Emit(b1, JumpIfFalse, 0), StmtCode(t, thenAt, thenBase), StmtLiterals(t))
    requires elseAt == thenAt + StmtSize(t) + 1 && elseBase == thenBase + StmtLiteralCount(t)
    requires |b1.code| < |b3.code|
    requires var b5 := Patch(Emit(b3, Jump, 0), |b1.code|, elseAt);
      CompilableStmt(f) && CompileStmt(b5, f) == Ok(b6)
      && b6 == Appended(b5, StmtCode(f, elseAt, elseBase), StmtLiterals(f))
    ensures |b3.code| + 1 == elseAt && |b3.code| < |b6.code|
    ensures var s := IfStmt(c, t, Some(f));
      Patch(b6, |b3.code|, |b6.code|) == Appended(bc, StmtCode(s, |bc.code|, |bc.constants|), StmtLiterals(s))
  {
    hide *;
    var s := IfStmt(c, t, Some(f));
    var at, cb := |bc.code|, |bc.constants|;
    ExprCodeSize(c, cb);
    StmtCodeSize(t, thenAt, thenBase);
    StmtCodeSize(f, elseAt, elseBase);
    IfElseCode(c, t, f, at, cb, thenAt, thenBase, elseAt, elseBase);
    IfElseSteps(bc, ExprCode(c, cb), Literals(c), StmtCode(t, thenAt, thenBase), StmtLiterals(t),
      StmtCode(f, elseAt, elseBase), StmtLiterals(f), b1, b3, b6, elseAt, elseAt + StmtSize(f),
      StmtCode(s, at, cb), StmtLiterals(s));
  }

  /** The two patches of an `if` with an else branch, on plain sequences. */
  lemma IfElseSteps(bc: Bytecode, cc: seq<Instruction>, lc: seq<int>, tc: seq<Instruction>, lt: seq<int>,
                    fc: seq<Instruction>, lf: seq<int>, b1: Bytecode, b3: Bytecode, b6: Bytecode,
                    elseAt: int, endAt: int, code: seq<Instruction>, lits: seq<int>)
    requires b1 == Appended(bc, cc, lc)
    requires b3 == Appended(Emit(b1, JumpIfFalse, 0), tc, lt)
    requires elseAt == |bc.code| + |cc| + 1 + |tc| + 1 && endAt == elseAt + |fc|
    requires b6 == Appended(Patch(Emit(b3, Jump, 0), |b1.code|, elseAt), fc, lf)
    requires code == cc + [Instruction(JumpIfFalse, elseAt)] + tc + [Instruction(Jump, endAt)] + fc
    requires lits == lc + lt + lf
    ensures |b1.code| < |b3.code| && |b3.code| + 1 == elseAt && |b3.code| < |b6.code|
    ensures Patch(b6, |b3.code|, |b6.code|) == Appended(bc, code, lits)
  {
    EmitThenAppend(bc, cc, lc, Instruction(JumpIfFalse, 0), tc, lt);
    ElseSteps(bc, cc, tc, lc + lt, elseAt, fc, lf);
    PatchAppended(bc, cc + [Instruction(JumpIfFalse, elseAt)] + tc, Jump, fc, lc + lt + lf, |b3.code|, |b6.code|);
  }

  /** The compiler's steps for an `if` with an else branch. */
  lemma CompileIfElse(bc: Bytecode, c: Expr, t: Stmt, f: Stmt, b1: Bytecode, b3: Bytecode, b6: Bytecode)
    requires CompileExpr(bc, c) == Ok(b1)
    requires CompileStmt(Emit(b1, JumpIfFalse, 0), t) == Ok(b3)
    requires |b1.code| < |b3.code|
    requires CompileStmt(Patch(Emit(b3, Jump, 0), |b1.code|, |b3.code| + 1), f) == Ok(b6)
    ensures |b3.code| < |b6.code|
    ensures CompileStmt(bc, IfStmt(c, t, Some(f))) == Ok(Patch(b6, |b3.code|, |b6.code|))
    ensures CompilableStmt(IfStmt(c, t, Some(f))) <==> Compilable(c) && CompilableStmt(t) && CompilableStmt(f)
  {
  }

  /** The reference code of an `if` with an else branch, one step unfolded. */
  lemma IfElseCode(c: Expr, t: Stmt, f: Stmt, at: nat, cb: nat, thenAt: nat, thenBase: nat, elseAt: nat, elseBase: nat)
    requires thenAt == at + ExprSize(c) + 1 && thenBase == cb + LiteralCount(c)
    requires elseAt == thenAt + StmtSize(t) + 1 && elseBase == thenBase + StmtLiteralCount(t)
    ensures StmtCode(IfStmt(c, t, Some(f)), at, cb)
         == ExprCode(c, cb) + [Instruction(JumpIfFalse, elseAt)] + StmtCode(t, thenAt, thenBase)
            + [Instruction(Jump, elseAt + StmtSize(f))] + StmtCode(f, elseAt, elseBase)
    ensures StmtLiterals(IfStmt(c, t, Some(f))) == Literals(c) + StmtLiterals(t) + StmtLiterals(f)
  {
    hide ExprCode, ExprSize, StmtSize, LiteralCount, StmtLiteralCount, Literals, BlockCode, BlockLiterals;
  }

  // Loops

  lemma WhileCondFails(bc: Bytecode, c: Expr, body: Stmt)
    requires ExprLaidOut(bc, c) && CompileExpr(bc, c).Err?
    ensures StmtLaidOut(bc, WhileStmt(c, body))
  {
    StmtLaidOutErr(bc, WhileStmt(c, body), CompileExpr(bc, c).error);
  }

  lemma WhileBodyFails(bc: Bytecode, c: Expr, body: Stmt, b1: Bytecode)
    requires Compilable(c) && CompileExpr(bc, c) == Ok(b1)
    requires StmtLaidOut(Emit(b1, JumpIfFalse, 0), body) && CompileStmt(Emit(b1, JumpIfFalse, 0), body).Err?
    ensures StmtLaidOut(bc, WhileStmt(c, body))
  {
    StmtLaidOutErr(bc, WhileStmt(c, body), CompileStmt(Emit(b1, JumpIfFalse, 0), body).error);
  }

  lemma WhileLayout(bc: Bytecode, c: Expr, body: Stmt, b1: Bytecode, b3: Bytecode, bodyAt: nat, bodyBase: nat)
    requires Compilable(c) && CompileExpr(bc, c) == Ok(b1)
    requires b1 == Appended(bc, ExprCode(c, |bc.constants|), Literals(c))
    requires bodyAt == |bc.code| + ExprSize(c) + 1 && bodyBase == |bc.constants| + LiteralCount(c)
    requires CompilableStmt(body) && CompileStmt(Emit(b1, JumpIfFalse, 0), body) == Ok(b3)
    requires b3 == Appended(Emit(b1, JumpIfFalse, 0), StmtCode(body, bodyAt, bodyBase), StmtLiterals(body))
    ensures StmtLaidOut(bc, WhileStmt(c, body))
  {
    hide *;
    var s := WhileStmt(c, body);
    var at, cb := |bc.code|, |bc.constants|;
    ExprCodeSize(c, cb);
    StmtCodeSize(body, bodyAt, bodyBase);
    WhileCode(c, body, at, cb, bodyAt, bodyBase);
    WhileSteps(bc, ExprCode(c, cb), Literals(c), StmtCode(body, bodyAt, bodyBase), StmtLiterals(body), b1, b3,
      StmtCode(s, at, cb), StmtLiterals(s));
    CompileWhile(bc, c, body, b1, b3);
    StmtLaidOutOk(bc, s, Patch(Emit(b3, Jump, at), |b1.code|, |Emit(b3, Jump, at).code|));
  }

  /** The loop-back jump and the exit patch of a `while`, on plain sequences. */
  lemma WhileSteps(bc: Bytecode, cc: seq<Instruction>, lc: seq<int>, tc: seq<Instruction>, lt: seq<int>,
                   b1: Bytecode, b3: Bytecode, code: seq<Instruction>, lits: seq<int>)
    requires b1 == Appended(bc, cc, lc)
    requires b3 == Appended(Emit(b1, JumpIfFalse, 0), tc, lt)
    requires code == cc + [Instruction(JumpIfFalse, |bc.code| + |cc| + 1 + |tc| + 1)]
                    + (tc + [Instruction(Jump, |bc.code|)])
    requires lits == lc + lt
    ensures var b4 := Emit(b3, Jump, |bc.code|);
      |b1.code| < |b4.code| && Patch(b4, |b1.code|, |b4.code|) == Appended(bc, code, lits)
  {
    var at := |bc.code|;
    EmitThenAppend(bc, cc, lc, Instruction(JumpIfFalse, 0), tc, lt);
    LoopBack(bc, cc, tc, lc + lt, at);
    PatchAppended(bc, cc, JumpIfFalse, tc + [Instruction(Jump, at)], lc + lt, |b1.code|, |b3.code| + 1);
  }

  /** The compiler's steps for a `while`. */
  lemma CompileWhile(bc: Bytecode, c: Expr, body: Stmt, b1: Bytecode, b3: Bytecode)
    requires CompileExpr(bc, c) == Ok(b1)
    requires CompileStmt(Emit(b1, JumpIfFalse, 0), body) == Ok(b3)
    ensures |b1.code| < |Emit(b3, Jump, |bc.code|).code|
    ensures var b4 := Emit(b3, Jump, |bc.code|);
      CompileStmt(bc, WhileStmt(c, body)) == Ok(Patch(b4, |b1.code|, |b4.code|))
    ensures CompilableStmt(WhileStmt(c, body)) <==> Compilable(c) && CompilableStmt(body)
  {
  }

  /** The reference code of a `while`, one step unfolded. */
  lemma WhileCode(c: Expr, body: Stmt, at: nat, cb: nat, bodyAt: nat, bodyBase: nat)
    requires bodyAt == at + ExprSize(c) + 1 && bodyBase == cb + LiteralCount(c)
    ensures StmtCode(WhileStmt(c, body), at, cb)
         == ExprCode(c, cb) + [Instruction(JumpIfFalse, bodyAt + StmtSize(body) + 1)]
            + (StmtCode(body, bodyAt, bodyBase) + [Instruction(Jump, at)])
    ensures StmtLiterals(WhileStmt(c, body)) == Literals(c) + StmtLiterals(body)
  {
    var x := Instruction(JumpIfFalse, bodyAt + StmtSize(body) + 1);
    var y := Instruction(Jump, at);
    var cc, bc := ExprCode(c, cb), StmtCode(body, bodyAt, bodyBase);
    assert cc + [x] + bc + [y] == cc + [x] + (bc + [y]);
  }

  // Blocks

  lemma BlockHeadFails(bc: Bytecode, ss: seq<Stmt>)
    requires |ss| > 0
    requires StmtLaidOut(bc, ss[0]) && CompileStmt(bc, ss[0]).Err?
    ensures BlockLaidOut(bc, ss)
  {
    assert CompileBlock(bc, ss) == Err(CompileStmt(bc, ss[0]).error);
  }

  lemma BlockConsLayout(bc: Bytecode, ss: seq<Stmt>, b1: Bytecode, restAt: nat, restBase: nat)
    requires |ss| > 0
    requires CompilableStmt(ss[0]) && CompileStmt(bc, ss[0]) == Ok(b1)
    requires b1 == Appended(bc, StmtCode(ss[0], |bc.code|, |bc.constants|), StmtLiterals(ss[0]))
    requires restAt == |b1.code| == |bc.code| + StmtSize(ss[0])
    requires restBase == |b1.constants| == |bc.constants| + StmtLiteralCount(ss[0])
    requires BlockLaidOut(b1, ss[1..])
    ensures BlockLaidOut(bc, ss)
  {
    hide *;
    BlockConsCompile(bc, ss, b1);
    BlockConsErrors(ss);
    BlockConsCode(ss, |bc.code|, |bc.constants|);
    if CompilableBlock(ss[1..]) {
      BlockLaidOutValue(b1, ss[1..]);
      AppendedTwice(bc, StmtCode(ss[0], |bc.code|, |bc.constants|), StmtLiterals(ss[0]),
        BlockCode(ss[1..], restAt, restBase), BlockLiterals(ss[1..]));
      BlockLaidOutOk(bc, ss, CompileBlock(b1, ss[1..]).value);
    } else {
      BlockLaidOutError(b1, ss[1..]);
      BlockLaidOutErr(bc, ss, BlockFirstError(ss[1..]).value);
    }
  }

  /** The compiler's step for a statement that compiles, then the rest. */
  lemma BlockConsCompile(bc: Bytecode, ss: seq<Stmt>, b1: Bytecode)
    requires |ss| > 0 && CompileStmt(bc, ss[0]) == Ok(b1)
    ensures CompileBlock(bc, ss) == CompileBlock(b1, ss[1..])
  {
    hide CompileStmt;
  }

  lemma BlockConsErrors(ss: seq<Stmt>)
    requires |ss| > 0 && CompilableStmt(ss[0])
    ensures BlockFirstError(ss) == BlockFirstError(ss[1..])
    ensures CompilableBlock(ss) <==> CompilableBlock(ss[1..])
  {
  }

  lemma BlockConsCode(ss: seq<Stmt>, at: nat, cb: nat)
    requires |ss| > 0
    ensures BlockLiterals(ss) == StmtLiterals(ss[0]) + BlockLiterals(ss[1..])
    ensures BlockCode(ss, at, cb) == StmtCode(ss[0], at, cb) + BlockCode(ss[1..], at + StmtSize(ss[0]), cb + StmtLiteralCount(ss[0]))
  {
  }

  lemma BlockLaidOutValue(bc: Bytecode, ss: seq<Stmt>)
    requires BlockLaidOut(bc, ss) && CompilableBlock(ss)
    ensures CompileBlock(bc, ss) == Ok(Appended(bc, BlockCode(ss, |bc.code|, |bc.constants|), BlockLiterals(ss)))
  {
  }

  lemma BlockLaidOutError(bc: Bytecode, ss: seq<Stmt>)
    requires BlockLaidOut(bc, ss) && !CompilableBlock(ss)
    ensures BlockFirstError(ss).Some? && CompileBlock(bc, ss) == Err(BlockFirstError(ss).value)
  {
  }

  lemma BlockLaidOutOk(bc: Bytecode, ss: seq<Stmt>, res: Bytecode)
    requires CompileBlock(bc, ss) == Ok(res) && CompilableBlock(ss)
    requires res == Appended(bc, BlockCode(ss, |bc.code|, |bc.constants|), BlockLiterals(ss))
    ensures BlockLaidOut(bc, ss)
  {
  }

  lemma BlockLaidOutErr(bc: Bytecode, ss: seq<Stmt>, err: CompileError)
    requires CompileBlock(bc, ss) == Err(err) && BlockFirstError(ss) == Some(err)
    ensures BlockLaidOut(bc, ss)
  {
  }


  // Sequence steps of the jumps

  /** Code appended after an instruction emitted after appended code. */
  lemma EmitThenAppend(bc: Bytecode, pre: seq<Instruction>, lp: seq<int>, x: Instruction,
                       post: seq<Instruction>, lq: seq<int>)
    ensures Appended(Emit(Appended(bc, pre, lp), x.op, x.operand), post, lq)
         == Appended(bc, pre + [x] + post, lp + lq)
  {
    EmitAppended(bc, pre, lp, x.op, x.operand);
    AppendedTwice(bc, pre + [x], lp, post, lq);
  }

  /** The closing jump of a then branch, the patch of the conditional jump
      over it, and the else branch's code after it. */
  lemma ElseSteps(bc: Bytecode, cc: seq<Instruction>, tc: seq<Instruction>, l1: seq<int>, elseAt: int,
                  fc: seq<Instruction>, lf: seq<int>)
    ensures |bc.code| + |cc| < |Emit(Appended(bc, cc + [Instruction(JumpIfFalse, 0)] + tc, l1), Jump, 0).code|
    ensures Appended(Patch(Emit(Appended(bc, cc + [Instruction(JumpIfFalse, 0)] + tc, l1), Jump, 0),
                           |bc.code| + |cc|, elseAt), fc, lf)
         == Appended(bc, cc + [Instruction(JumpIfFalse, elseAt)] + tc + [Instruction(Jump, 0)] + fc, l1 + lf)
  {
    var j0, j1, k := Instruction(JumpIfFalse, 0), Instruction(JumpIfFalse, elseAt), Instruction(Jump, 0);
    EmitAppended(bc, cc + [j0] + tc, l1, Jump, 0);
    assert cc + [j0] + tc + [k] == cc + [j0] + (tc + [k]);
    PatchAppended(bc, cc, JumpIfFalse, tc + [k], l1, |bc.code| + |cc|, elseAt);
    AppendedTwice(bc, cc + [j1] + (tc + [k]), l1, fc, lf);
    assert cc + [j1] + (tc + [k]) + fc == cc + [j1] + tc + [k] + fc;
  }

  /** The back jump at the end of a loop body. */
  lemma LoopBack(bc: Bytecode, cc: seq<Instruction>, body: seq<Instruction>, lits: seq<int>, at: int)
    ensures Emit(Appended(bc, cc + [Instruction(JumpIfFalse, 0)] + body, lits), Jump, at)
         == Appended(bc, cc + [Instruction(JumpIfFalse, 0)] + (body + [Instruction(Jump, at)]), lits)
  {
    var x, y := Instruction(JumpIfFalse, 0), Instruction(Jump, at);
    EmitAppended(bc, cc + [x] + body, lits, Jump, at);
    assert cc + [x] + body + [y] == cc + [x] + (body + [y]);
  }
}
