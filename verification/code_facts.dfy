/** Properties of the code the compiler emits, read off the reference
    layout: every jump lands inside the program, every CONST names an
    entry of the constant table, only opcodes the VM handles are emitted,
    and HALT comes last. Expression code has no jumps, so its stack effect
    can be added up: one value, or none for an assignment. */
module CodeFacts {
  import opened Results
  import Lexer
  import opened Ast
  import opened Compiler
  import opened Layout

  /** The opcodes the compiler declares but never emits, which the VM
      rejects. */
  predicate Unhandled(op: OpCode) {
    op == StoreVar || op == LoadConst || op == Loop || op == Pop
  }

  predicate IsJump(op: OpCode) {
    op == JumpIfFalse || op == Jump
  }

  /** An instruction of a piece of code whose jumps land in [lo, hi] and
      whose constants are [clo, chi): an opcode the VM handles other than
      HALT, with an operand in the matching range. */
  predicate Placed(x: Instruction, lo: int, hi: int, clo: int, chi: int) {
    && (IsJump(x.op) ==> lo <= x.operand <= hi)
    && (x.op == Const ==> clo <= x.operand < chi)
    && !Unhandled(x.op) && x.op != Halt
  }

  predicate AllPlaced(code: seq<Instruction>, lo: int, hi: int, clo: int, chi: int) {
    forall i | 0 <= i < |code| :: Placed(code[i], lo, hi, clo, chi)
  }

  lemma PlacedConcat(a: seq<Instruction>, b: seq<Instruction>, lo: int, hi: int, clo: int, chi: int)
    requires AllPlaced(a, lo, hi, clo, chi) && AllPlaced(b, lo, hi, clo, chi)
    ensures AllPlaced(a + b, lo, hi, clo, chi)
  {
    forall i | 0 <= i < |a + b|
      ensures Placed((a + b)[i], lo, hi, clo, chi)
    {
      if i >= |a| {
        assert (a + b)[i] == b[i - |a|];
      }
    }
  }

  lemma PlacedOne(x: Instruction, lo: int, hi: int, clo: int, chi: int)
    requires Placed(x, lo, hi, clo, chi)
    ensures AllPlaced([x], lo, hi, clo, chi)
  {
  }

  lemma PlacedWiden(code: seq<Instruction>, lo: int, hi: int, clo: int, chi: int,
                    lo': int, hi': int, clo': int, chi': int)
    requires AllPlaced(code, lo, hi, clo, chi)
    requires lo' <= lo && hi <= hi' && clo' <= clo && chi <= chi'
    ensures AllPlaced(code, lo', hi', clo', chi')
  {
    forall i | 0 <= i < |code|
      ensures Placed(code[i], lo', hi', clo', chi')
    {
      assert Placed(code[i], lo, hi, clo, chi);
    }
  }

  /** Expression code has no jumps, so any jump range holds; its constants
      are the ones it adds. */
  lemma {:induction false} ExprCodePlaced(e: Expr, cb: nat, lo: int, hi: int)
    requires Compilable(e)
    ensures AllPlaced(ExprCode(e, cb), lo, hi, cb, cb + LiteralCount(e))
    decreases e
  {
    hide *;
    match e
    case Literal(_) => LeafPlaced(e, cb, lo, hi);
    case Variable(_) => LeafPlaced(e, cb, lo, hi);
    case Binary(l, op, r) =>
      BinaryShape(l, op, r);
      var hiC := cb + LiteralCount(e);
      if IsAssignment(op.lexeme) {
        ExprCodePlaced(r, cb, lo, hi);
        InstructionPlaced(Instruction(SetVar, TargetId(l)), lo, hi, cb, hiC);
        AssignmentCode(l, op, r, cb);
        PlacedSnoc(ExprCode(r, cb), Instruction(SetVar, TargetId(l)), lo, hi, cb, hiC);
      } else {
        var mid := cb + LiteralCount(l);
        ExprCodePlaced(l, cb, lo, hi);
        ExprCodePlaced(r, mid, lo, hi);
        ExprCodeOperator(l, op, r, cb);
        InstructionPlaced(Instruction(OperatorOpcode(op.lexeme), 0), lo, hi, cb, hiC);
        PlacedWiden(ExprCode(l, cb), lo, hi, cb, mid, lo, hi, cb, hiC);
        PlacedWiden(ExprCode(r, mid), lo, hi, mid, hiC, lo, hi, cb, hiC);
        PlacedConcat(ExprCode(l, cb), ExprCode(r, mid), lo, hi, cb, hiC);
        PlacedSnoc(ExprCode(l, cb) + ExprCode(r, mid), Instruction(OperatorOpcode(op.lexeme), 0), lo, hi, cb, hiC);
      }
  }

  lemma LeafPlaced(e: Expr, cb: nat, lo: int, hi: int)
    requires !e.Binary?
    ensures AllPlaced(ExprCode(e, cb), lo, hi, cb, cb + LiteralCount(e))
  {
  }

  /** What a binary node needs to compile, and its number of literals. */
  lemma BinaryShape(l: Expr, op: Lexer.Token, r: Expr)
    ensures IsAssignment(op.lexeme) ==>
      (Compilable(Binary(l, op, r)) <==> l.Variable? && Compilable(r))
      && LiteralCount(Binary(l, op, r)) == LiteralCount(r)
    ensures !IsAssignment(op.lexeme) ==>
      (Compilable(Binary(l, op, r)) <==> Compilable(l) && Compilable(r) && OperatorCode(op.lexeme).Some?)
      && LiteralCount(Binary(l, op, r)) == LiteralCount(l) + LiteralCount(r)
  {
  }

  /** SET_VAR and the operator opcodes fit any piece of code. */
  lemma InstructionPlaced(x: Instruction, lo: int, hi: int, clo: int, chi: int)
    requires x.op == SetVar || (exists op :: OperatorCode(op).Some? && x.op == OperatorOpcode(op))
    ensures Placed(x, lo, hi, clo, chi)
  {
  }

  /** The code of an assignment: its right side, then SET_VAR. */
  lemma AssignmentCode(l: Expr, op: Lexer.Token, r: Expr, cb: nat)
    requires IsAssignment(op.lexeme)
    ensures ExprCode(Binary(l, op, r), cb) == ExprCode(r, cb) + [Instruction(SetVar, TargetId(l))]
  {
  }

  /** The code of a statement that starts at index `at` jumps only within
      itself or to the index just past it, and names only its own
      constants. */
  lemma {:induction false} StmtCodePlaced(s: Stmt, at: nat, cb: nat)
    requires CompilableStmt(s)
    ensures AllPlaced(StmtCode(s, at, cb), at, at + StmtSize(s), cb, cb + StmtLiteralCount(s))
    decreases s, 1
  {
    hide *;
    match s
    case LetStmt(_, _) => SimplePlaced(s, at, cb);
    case YapStmt(_) => SimplePlaced(s, at, cb);
    case ExprStmt(_) => SimplePlaced(s, at, cb);
    case IfStmt(c, t, f) =>
      if f.None? {
        IfNoElsePlaced(c, t, at, cb);
      } else {
        IfElsePlaced(c, t, f.value, at, cb);
      }
    case WhileStmt(c, body) =>
      WhilePlaced(c, body, at, cb);
    case BlockStmt(ss) =>
      BlockStmtShape(ss);
      BlockCodePlaced(ss, at, cb);
  }

  /** `let`, `yap` and an expression statement: the expression's code and
      at most one instruction that is no jump and no CONST. */
  lemma SimplePlaced(s: Stmt, at: nat, cb: nat)
    requires CompilableStmt(s) && (s.LetStmt? || s.YapStmt? || s.ExprStmt?)
    ensures AllPlaced(StmtCode(s, at, cb), at, at + StmtSize(s), cb, cb + StmtLiteralCount(s))
  {
    hide *;
    var e, tail := SimpleShape(s, at, cb);
    ExprCodePlaced(e, cb, at, at + StmtSize(s));
    PlacedConcat(ExprCode(e, cb), tail, at, at + StmtSize(s), cb, cb + StmtLiteralCount(s));
  }

  /** A `let`, `yap` or expression statement is its expression's code and
      at most one instruction that names no index. */
  lemma SimpleShape(s: Stmt, at: nat, cb: nat) returns (e: Expr, tail: seq<Instruction>)
    requires CompilableStmt(s) && (s.LetStmt? || s.YapStmt? || s.ExprStmt?)
    ensures Compilable(e) && StmtCode(s, at, cb) == ExprCode(e, cb) + tail
    ensures StmtSize(s) == ExprSize(e) + |tail| && StmtLiteralCount(s) == LiteralCount(e)
    ensures AllPlaced(tail, at, at + StmtSize(s), cb, cb + StmtLiteralCount(s))
  {
    match s
    case LetStmt(name, init) =>
      e, tail := init, [Instruction(DefineVar, VarId(name))];
    case YapStmt(x) =>
      e, tail := x, [Instruction(Print, 0)];
    case ExprStmt(x) =>
      e, tail := x, [];
  }

  lemma {:induction false} IfNoElsePlaced(c: Expr, t: Stmt, at: nat, cb: nat)
    requires CompilableStmt(IfStmt(c, t, None))
    ensures var s := IfStmt(c, t, None);
      AllPlaced(StmtCode(s, at, cb), at, at + StmtSize(s), cb, cb + StmtLiteralCount(s))
    decreases IfStmt(c, t, None), 0
  {
    hide *;
    IfShape(c, t, None);
    var thenAt, thenBase := at + ExprSize(c) + 1, cb + LiteralCount(c);
    var hi, hiC := thenAt + StmtSize(t), thenBase + StmtLiteralCount(t);
    IfNoElseCode(c, t, at, cb, thenAt, thenBase);
    ExprCodePlaced(c, cb, at, hi);
    StmtCodePlaced(t, thenAt, thenBase);
    PlacedWiden(ExprCode(c, cb), at, hi, cb, thenBase, at, hi, cb, hiC);
    PlacedWiden(StmtCode(t, thenAt, thenBase), thenAt, hi, thenBase, hiC, at, hi, cb, hiC);
    JumpPlaced(JumpIfFalse, hi, at, hi, cb, hiC);
    PlacedJoin(ExprCode(c, cb), Instruction(JumpIfFalse, hi), StmtCode(t, thenAt, thenBase), at, hi, cb, hiC);
  }

  lemma {:induction false} IfElsePlaced(c: Expr, t: Stmt, f: Stmt, at: nat, cb: nat)
    requires CompilableStmt(IfStmt(c, t, Some(f)))
    ensures var s := IfStmt(c, t, Some(f));
      AllPlaced(StmtCode(s, at, cb), at, at + StmtSize(s), cb, cb + StmtLiteralCount(s))
    decreases IfStmt(c, t, Some(f)), 0
  {
    hide *;
    IfShape(c, t, Some(f));
    var thenAt, thenBase := at + ExprSize(c) + 1, cb + LiteralCount(c);
    var elseAt, elseBase := thenAt + StmtSize(t) + 1, thenBase + StmtLiteralCount(t);
    var hi, hiC := elseAt + StmtSize(f), elseBase + StmtLiteralCount(f);
    IfElseCode(c, t, f, at, cb, thenAt, thenBase, elseAt, elseBase);
    ExprCodePlaced(c, cb, at, hi);
    StmtCodePlaced(t, thenAt, thenBase);
    StmtCodePlaced(f, elseAt, elseBase);
    var cc, tc, fc := ExprCode(c, cb), StmtCode(t, thenAt, thenBase), StmtCode(f, elseAt, elseBase);
    var j1, j2 := Instruction(JumpIfFalse, elseAt), Instruction(Jump, hi);
    PlacedWiden(cc, at, hi, cb, thenBase, at, hi, cb, hiC);
    PlacedWiden(tc, thenAt, elseAt - 1, thenBase, elseBase, at, hi, cb, hiC);
    PlacedWiden(fc, elseAt, hi, elseBase, hiC, at, hi, cb, hiC);
    JumpPlaced(JumpIfFalse, elseAt, at, hi, cb, hiC);
    JumpPlaced(Jump, hi, at, hi, cb, hiC);
    PlacedJoin(cc, j1, tc, at, hi, cb, hiC);
    PlacedJoin(cc + [j1] + tc, j2, fc, at, hi, cb, hiC);
  }

  lemma {:induction false} WhilePlaced(c: Expr, body: Stmt, at: nat, cb: nat)
    requires CompilableStmt(WhileStmt(c, body))
    ensures var s := WhileStmt(c, body);
      AllPlaced(StmtCode(s, at, cb), at, at + StmtSize(s), cb, cb + StmtLiteralCount(s))
    decreases WhileStmt(c, body), 0
  {
    hide *;
    WhileShape(c, body);
    var bodyAt, bodyBase := at + ExprSize(c) + 1, cb + LiteralCount(c);
    var hi, hiC := bodyAt + StmtSize(body) + 1, bodyBase + StmtLiteralCount(body);
    WhileCode(c, body, at, cb, bodyAt, bodyBase);
    ExprCodePlaced(c, cb, at, hi);
    StmtCodePlaced(body, bodyAt, bodyBase);
    var cc, bc := ExprCode(c, cb), StmtCode(body, bodyAt, bodyBase);
    PlacedWiden(cc, at, hi, cb, bodyBase, at, hi, cb, hiC);
    PlacedWiden(bc, bodyAt, hi - 1, bodyBase, hiC, at, hi, cb, hiC);
    JumpPlaced(Jump, at, at, hi, cb, hiC);
    JumpPlaced(JumpIfFalse, hi, at, hi, cb, hiC);
    PlacedSnoc(bc, Instruction(Jump, at), at, hi, cb, hiC);
    PlacedJoin(cc, Instruction(JumpIfFalse, hi), bc + [Instruction(Jump, at)], at, hi, cb, hiC);
  }

  lemma {:induction false} BlockCodePlaced(ss: seq<Stmt>, at: nat, cb: nat)
    requires CompilableBlock(ss)
    ensures AllPlaced(BlockCode(ss, at, cb), at, at + BlockSize(ss), cb, cb + BlockLiteralCount(ss))
    decreases ss, 0
  {
    hide *;
    if |ss| > 0 {
      BlockShape(ss);
      var restAt, restBase := at + StmtSize(ss[0]), cb + StmtLiteralCount(ss[0]);
      var hi, hiC := at + BlockSize(ss), cb + BlockLiteralCount(ss);
      StmtCodePlaced(ss[0], at, cb);
      BlockCodePlaced(ss[1..], restAt, restBase);
      BlockConsCode(ss, at, cb);
      PlacedWiden(StmtCode(ss[0], at, cb), at, restAt, cb, restBase, at, hi, cb, hiC);
      PlacedWiden(BlockCode(ss[1..], restAt, restBase), restAt, hi, restBase, hiC, at, hi, cb, hiC);
      PlacedConcat(StmtCode(ss[0], at, cb), BlockCode(ss[1..], restAt, restBase), at, hi, cb, hiC);
    } else {
      EmptyBlockPlaced(ss, at, cb);
    }
  }

  lemma EmptyBlockPlaced(ss: seq<Stmt>, at: nat, cb: nat)
    requires |ss| == 0
    ensures AllPlaced(BlockCode(ss, at, cb), at, at + BlockSize(ss), cb, cb + BlockLiteralCount(ss))
  {
  }

  /** The parts of an `if`: what it needs to compile, its size and its
      number of literals. */
  lemma IfShape(c: Expr, t: Stmt, f: Option<Stmt>)
    ensures CompilableStmt(IfStmt(c, t, f)) <==>
      Compilable(c) && CompilableStmt(t) && (f.Some? ==> CompilableStmt(f.value))
    ensures StmtSize(IfStmt(c, t, f)) == ExprSize(c) + 1 + StmtSize(t) + (if f.Some? then 1 + StmtSize(f.value) else 0)
    ensures StmtLiteralCount(IfStmt(c, t, f))
         == LiteralCount(c) + StmtLiteralCount(t) + (if f.Some? then StmtLiteralCount(f.value) else 0)
  {
  }

  lemma WhileShape(c: Expr, body: Stmt)
    ensures CompilableStmt(WhileStmt(c, body)) <==> Compilable(c) && CompilableStmt(body)
    ensures StmtSize(WhileStmt(c, body)) == ExprSize(c) + 1 + StmtSize(body) + 1
    ensures StmtLiteralCount(WhileStmt(c, body)) == LiteralCount(c) + StmtLiteralCount(body)
  {
  }

  lemma BlockStmtShape(ss: seq<Stmt>)
    ensures CompilableStmt(BlockStmt(ss)) <==> CompilableBlock(ss)
    ensures StmtSize(BlockStmt(ss)) == BlockSize(ss) && StmtLiteralCount(BlockStmt(ss)) == BlockLiteralCount(ss)
    ensures forall at: nat, cb: nat :: StmtCode(BlockStmt(ss), at, cb) == BlockCode(ss, at, cb)
  {
  }

  lemma BlockShape(ss: seq<Stmt>)
    requires |ss| > 0
    ensures CompilableBlock(ss) <==> CompilableStmt(ss[0]) && CompilableBlock(ss[1..])
    ensures BlockSize(ss) == StmtSize(ss[0]) + BlockSize(ss[1..])
    ensures BlockLiteralCount(ss) == StmtLiteralCount(ss[0]) + BlockLiteralCount(ss[1..])
  {
  }

  lemma JumpPlaced(op: OpCode, target: int, lo: int, hi: int, clo: int, chi: int)
    requires IsJump(op) && lo <= target <= hi
    ensures Placed(Instruction(op, target), lo, hi, clo, chi)
  {
  }

  lemma PlacedJoin(a: seq<Instruction>, x: Instruction, b: seq<Instruction>, lo: int, hi: int, clo: int, chi: int)
    requires AllPlaced(a, lo, hi, clo, chi) && Placed(x, lo, hi, clo, chi) && AllPlaced(b, lo, hi, clo, chi)
    ensures AllPlaced(a + [x] + b, lo, hi, clo, chi)
  {
    PlacedOne(x, lo, hi, clo, chi);
    PlacedConcat(a, [x], lo, hi, clo, chi);
    PlacedConcat(a + [x], b, lo, hi, clo, chi);
  }

  lemma PlacedSnoc(a: seq<Instruction>, x: Instruction, lo: int, hi: int, clo: int, chi: int)
    requires AllPlaced(a, lo, hi, clo, chi) && Placed(x, lo, hi, clo, chi)
    ensures AllPlaced(a + [x], lo, hi, clo, chi)
  {
    PlacedOne(x, lo, hi, clo, chi);
    PlacedConcat(a, [x], lo, hi, clo, chi);
  }

  /** The bytecode of a program that compiles: HALT is its last
      instruction and no other, every jump lands on an instruction of the
      program, every CONST names an entry of the constant table, and none
      of STORE_VAR, LOAD_CONST, LOOP or POP appears. */
  lemma ProgramPlaced(ss: seq<Stmt>)
    requires CompilableBlock(ss)
    ensures Compile(ss).Ok?
    ensures var p := Compile(ss).value;
      && |p.code| > 0 && p.code[|p.code| - 1] == Instruction(Halt, 0)
      && forall i | 0 <= i < |p.code| - 1 :: Placed(p.code[i], 0, |p.code| - 1, 0, |p.constants|)
  {
    CompileLayout(ss);
    BlockCodePlaced(ss, 0, 0);
    BlockCodeSize(ss, 0, 0);
    BlockLiteralsSize(ss);
    var p := Compile(ss).value;
    var body := BlockCode(ss, 0, 0);
    assert p.code == body + [Instruction(Halt, 0)];
    forall i | 0 <= i < |p.code| - 1
      ensures Placed(p.code[i], 0, |p.code| - 1, 0, |p.constants|)
    {
      assert p.code[i] == body[i];
    }
  }

  /** The jump and constant operands of a compiled program index into it. */
  lemma ProgramOperands(ss: seq<Stmt>)
    requires Compile(ss).Ok?
    ensures var p := Compile(ss).value;
      forall i | 0 <= i < |p.code| ::
        && (IsJump(p.code[i].op) ==> 0 <= p.code[i].operand < |p.code|)
        && (p.code[i].op == Const ==> 0 <= p.code[i].operand < |p.constants|)
        && !Unhandled(p.code[i].op)
  {
    CompileLayout(ss);
    ProgramPlaced(ss);
  }

  // ---------------------------------------------------------------------
  // Stack effect of straight-line code
  // ---------------------------------------------------------------------

  /** How many values an instruction takes off the VM stack. */
  function Pops(op: OpCode): nat {
    if IsOperator(op) then 2
    else if op in {SetVar, DefineVar, Print, JumpIfFalse} then 1
    else 0
  }

  /** How many values an instruction leaves on the VM stack. */
  function Pushes(op: OpCode): nat {
    if IsOperator(op) || op == Const || op == LoadVar then 1 else 0
  }

  /** The change in stack height over straight-line code. */
  function Net(code: seq<Instruction>): int {
    if |code| == 0 then 0 else Pushes(code[0].op) - Pops(code[0].op) + Net(code[1..])
  }

  /** Straight-line code run from a stack of height h never pops more
      values than the stack holds. */
  predicate NoUnderflow(code: seq<Instruction>, h: int) {
    |code| == 0 ||
    (Pops(code[0].op) <= h && NoUnderflow(code[1..], h - Pops(code[0].op) + Pushes(code[0].op)))
  }

  lemma {:induction false} NetConcat(a: seq<Instruction>, b: seq<Instruction>)
    ensures Net(a + b) == Net(a) + Net(b)
  {
    if |a| > 0 {
      assert (a + b)[1..] == a[1..] + b;
      NetConcat(a[1..], b);
    } else {
      assert a + b == b;
    }
  }

  lemma {:induction false} NoUnderflowConcat(a: seq<Instruction>, b: seq<Instruction>, h: int)
    ensures NoUnderflow(a + b, h) <==> NoUnderflow(a, h) && NoUnderflow(b, h + Net(a))
  {
    if |a| > 0 {
      assert (a + b)[1..] == a[1..] + b;
      NoUnderflowConcat(a[1..], b, h - Pops(a[0].op) + Pushes(a[0].op));
    } else {
      assert a + b == b;
    }
  }

  /** An expression without assignments leaves exactly one value on the
      stack and never pops below where it started. */
  lemma {:induction false} ValueEffect(e: Expr, cb: nat, h: nat)
    requires Compilable(e) && AssignmentFree(e)
    ensures Net(ExprCode(e, cb)) == 1 && NoUnderflow(ExprCode(e, cb), h)
    decreases e
  {
    match e
    case Literal(_) =>
    case Variable(_) =>
    case Binary(l, op, r) =>
      assert !IsAssignment(op.lexeme) && AssignmentFree(l) && AssignmentFree(r);
      BinaryShape(l, op, r);
      hide *;
      ValueEffect(l, cb, h);
      ValueEffect(r, cb + LiteralCount(l), h + 1);
      OperatorJoin(l, op, r, cb, h);
  }

  /** Two operands that each leave one value, then their operator, leave
      one value. */
  lemma OperatorJoin(l: Expr, op: Lexer.Token, r: Expr, cb: nat, h: nat)
    requires !IsAssignment(op.lexeme) && OperatorCode(op.lexeme).Some?
    requires Net(ExprCode(l, cb)) == 1 && NoUnderflow(ExprCode(l, cb), h)
    requires Net(ExprCode(r, cb + LiteralCount(l))) == 1 && NoUnderflow(ExprCode(r, cb + LiteralCount(l)), h + 1)
    ensures Net(ExprCode(Binary(l, op, r), cb)) == 1 && NoUnderflow(ExprCode(Binary(l, op, r), cb), h)
  {
    hide ExprCode, Net, NoUnderflow;
    var lc, rc := ExprCode(l, cb), ExprCode(r, cb + LiteralCount(l));
    var x := Instruction(OperatorOpcode(op.lexeme), 0);
    ExprCodeOperator(l, op, r, cb);
    OperatorEffect(x, h + 2);
    NetConcat(lc, rc);
    NetConcat(lc + rc, [x]);
    NoUnderflowConcat(lc, rc, h);
    NoUnderflowConcat(lc + rc, [x], h);
  }

  /** An operator takes two values and leaves one. */
  lemma OperatorEffect(x: Instruction, h: int)
    requires IsOperator(x.op) && h >= 2
    ensures Net([x]) == -1 && NoUnderflow([x], h)
  {
    assert [x][1..] == [];
  }

  /** An assignment `x = e` stores e's value and leaves nothing. */
  lemma AssignmentEffect(e: Expr, cb: nat, h: nat)
    requires e.Binary? && IsAssignment(e.op.lexeme) && Compilable(e) && AssignmentFree(e.right)
    ensures Net(ExprCode(e, cb)) == 0 && NoUnderflow(ExprCode(e, cb), h)
  {
    var rc := ExprCode(e.right, cb);
    var x := [Instruction(SetVar, TargetId(e.left))];
    ValueEffect(e.right, cb, h);
    NetConcat(rc, x);
    NoUnderflowConcat(rc, x, h);
  }

  /** An expression statement leaves its value on the stack, since nothing
      pops it; an assignment statement leaves nothing. */
  lemma ExprStmtEffect(e: Expr, cb: nat, at: nat)
    requires Compilable(e)
    requires AssignmentFree(e) || (e.Binary? && IsAssignment(e.op.lexeme) && AssignmentFree(e.right))
    ensures Net(StmtCode(ExprStmt(e), at, cb)) == if AssignmentFree(e) then 1 else 0
  {
    if AssignmentFree(e) {
      ValueEffect(e, cb, 0);
    } else {
      AssignmentEffect(e, cb, 0);
    }
  }

  /** `let` and `yap` consume the value of their expression. */
  lemma ConsumedEffect(s: Stmt, cb: nat, at: nat, h: nat)
    requires (s.LetStmt? && Compilable(s.init) && AssignmentFree(s.init))
          || (s.YapStmt? && Compilable(s.expr) && AssignmentFree(s.expr))
    ensures Net(StmtCode(s, at, cb)) == 0 && NoUnderflow(StmtCode(s, at, cb), h)
  {
    var e := if s.LetStmt? then s.init else s.expr;
    var x := if s.LetStmt? then [Instruction(DefineVar, VarId(s.name))] else [Instruction(Print, 0)];
    assert StmtCode(s, at, cb) == ExprCode(e, cb) + x;
    ValueEffect(e, cb, h);
    NetConcat(ExprCode(e, cb), x);
    NoUnderflowConcat(ExprCode(e, cb), x, h);
  }

  /** `yap(x = 1)` compiles to code that prints from an empty stack: the
      assignment leaves no value for PRINT. */
  lemma YapOfAssignment()
    ensures var x := Lexer.Token(Lexer.Identifier, "x", 1);
      var e := Binary(Variable(x), Lexer.Token(Lexer.Assign, "=", 1), Literal(Lexer.Token(Lexer.Int, "1", 1)));
      && CompilableStmt(YapStmt(e))
      && StmtCode(YapStmt(e), 0, 0) == [Instruction(Const, 0), Instruction(SetVar, 'x' as int), Instruction(Print, 0)]
      && !NoUnderflow(StmtCode(YapStmt(e), 0, 0), 0)
  {
    var code := [Instruction(Const, 0), Instruction(SetVar, 'x' as int), Instruction(Print, 0)];
    assert !NoUnderflow(code[2..], 0);
    assert !NoUnderflow(code[1..], 1) by {
      assert code[1..][1..] == code[2..];
    }
    assert code[1..] == [Instruction(SetVar, 'x' as int), Instruction(Print, 0)];
  }
}
