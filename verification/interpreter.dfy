/** The tree-walking interpreter. It evaluates expressions to C `int`s
    and runs statements against one global environment: a block runs its
    statements in that same environment, so a `let` inside a block is
    still visible after it. Variables are named by their whole name, unlike
    in the VM.

    Only an expression statement of the form `name = e` assigns. Anywhere
    else `=` is an operator the evaluator does not know: it evaluates both
    sides, then fails. The C interpreter exits on an unknown operator and
    on an undefined variable, and a division by zero is undefined behaviour
    there; here each is a failure. Every statement prints a trace line; the
    lines are collected as events. A `while` may take at most `fuel`
    iterations. */
module Interpreter {
  import opened Results
  import opened Values
  import opened Ast
  import opened Compiler
  import opened Environment
  import Vm

  datatype Failure =
    | Undefined(name: string)
    | UnknownOperator(op: string)
    | DivisionByZero
    | OutOfFuel

  /** The trace lines `exec_stmt` prints. */
  datatype Event =
    | Defined(name: string, value: int)
    | Yapped(value: int)
    | Reassigned(name: string, value: int)
    | IfCondition(value: int)
    | WhileTrue

  function Line(ev: Event): string {
    match ev
    case Defined(name, v) => "Defined variable " + name + " = " + Format(v)
    case Yapped(v) => "Yap output: " + Format(v)
    case Reassigned(name, v) => "Re-assigned variable " + name + " = " + Format(v)
    case IfCondition(v) => "If condition: " + Format(v)
    case WhileTrue => "While condition true"
  }

  /** The `yap` line ends with the printed value in a form `atoi` reads
      back. */
  lemma YapLine(v: int)
    ensures var l := Line(Yapped(v));
      |l| > 12 && l[..12] == "Yap output: " && Atoi(l[12..]) == v
  {
    var l := Line(Yapped(v));
    assert l[12..] == Format(v);
    AtoiFormat(v);
  }

  datatype State = State(env: Env, events: seq<Event>)

  // ---------------------------------------------------------------------
  // Expressions
  // ---------------------------------------------------------------------

  /** `eval_expr`: both operands first, left to right, then the operator.
      The ten operators compute what the VM's do. */
  function Eval(env: Env, e: Expr): (r: Result<int, Failure>)
    ensures r.Ok? ==> AssignmentFree(e)
    decreases e
  {
    match e
    case Literal(t) => Ok(Atoi(t.lexeme))
    case Variable(t) =>
      if Lookup(env, t.lexeme).Err? then Err(Undefined(t.lexeme))
      else Ok(Lookup(env, t.lexeme).value)
    case Binary(l, op, rhs) =>
      var a :- Eval(env, l);
      var b :- Eval(env, rhs);
      match OperatorCode(op.lexeme)
      case None => Err(Failure.UnknownOperator(op.lexeme))
      case Some(c) =>
        if c == Div && b == 0 then Err(DivisionByZero)
        else Ok(Vm.Apply(c, a, b).value)
  }

  /** A binary node whose sides evaluate gets the value the VM's operator
      gives, and `=` among them fails as an unknown operator. */
  lemma EvalBinary(env: Env, l: Expr, op: Lexer.Token, rhs: Expr)
    requires Eval(env, l).Ok? && Eval(env, rhs).Ok?
    ensures var a, b := Eval(env, l).value, Eval(env, rhs).value;
      && (IsAssignment(op.lexeme) ==> Eval(env, Binary(l, op, rhs)) == Err(Failure.UnknownOperator("=")))
      && (forall c | OperatorCode(op.lexeme) == Some(c) ::
            Vm.Apply(c, a, b).Ok? ==> Eval(env, Binary(l, op, rhs)) == Ok(Vm.Apply(c, a, b).value))
  {
    hide Vm.Apply, Lookup, Atoi, OperatorCode;
    if IsAssignment(op.lexeme) {
      assert op.lexeme == "=";
    }
  }

  /** A side that fails decides the failure, the left one first. */
  lemma EvalOrder(env: Env, l: Expr, op: Lexer.Token, rhs: Expr)
    ensures Eval(env, l).Err? ==> Eval(env, Binary(l, op, rhs)) == Eval(env, l).PropagateFailure()
    ensures Eval(env, l).Ok? && Eval(env, rhs).Err? ==>
      Eval(env, Binary(l, op, rhs)) == Eval(env, rhs).PropagateFailure()
  {
  }

  // ---------------------------------------------------------------------
  // Statements
  // ---------------------------------------------------------------------

  /** The assignment an expression statement performs, when it is one. */
  predicate IsReassignment(e: Expr) {
    e.Binary? && IsAssignment(e.op.lexeme) && e.left.Variable?
  }

  /** Where a run stopped: the state it reached, and the failure that
      stopped it there, if any. The C program prints each trace line as it
      goes and exits on a failure, so the events of a failed run are those
      printed before it failed. */
  datatype Outcome = Outcome(st: State, failure: Option<Failure>)

  /** A statement that fails before it prints anything leaves the state as
      it was. */
  function Stop(st: State, f: Failure): Outcome {
    Outcome(st, Some(f))
  }

  /** `exec_stmt`. Every statement, whether it finishes or fails, keeps the
      events already printed and adds no scope. */
  function Exec(st: State, s: Stmt, fuel: nat): (o: Outcome)
    ensures st.events <= o.st.events
    ensures Depth(o.st.env) == Depth(st.env)
    decreases fuel, s
  {
    match s
    case LetStmt(name, init) =>
      (match Eval(st.env, init)
       case Err(f) => Stop(st, f)
       case Ok(v) => Outcome(State(Define(st.env, name.lexeme, v), st.events + [Defined(name.lexeme, v)]), None))
    case YapStmt(e) =>
      (match Eval(st.env, e)
       case Err(f) => Stop(st, f)
       case Ok(v) => Outcome(st.(events := st.events + [Yapped(v)]), None))
    case ExprStmt(e) =>
      if IsReassignment(e) then
        var name := e.left.name.lexeme;
        match Eval(st.env, e.right)
        case Err(f) => Stop(st, f)
        case Ok(v) =>
          if Assign(st.env, name, v).Err? then Stop(st, Undefined(name))
          else
            AssignDepth(st.env, name, v);
            Outcome(State(Assign(st.env, name, v).value, st.events + [Reassigned(name, v)]), None)
      else
        (match Eval(st.env, e)
         case Err(f) => Stop(st, f)
         case Ok(_) => Outcome(st, None))
    case IfStmt(c, t, f) =>
      (match Eval(st.env, c)
       case Err(x) => Stop(st, x)
       case Ok(v) =>
         var st1 := st.(events := st.events + [IfCondition(v)]);
         if v != 0 then Exec(st1, t, fuel)
         else if f.Some? then Exec(st1, f.value, fuel)
         else Outcome(st1, None))
    case WhileStmt(c, body) => Loop(st, c, body, fuel)
    case BlockStmt(ss) => ExecBlock(st, ss, fuel)
  }

  /** The `while` loop: test, and on a nonzero value print, run the body
      and test again. Each iteration uses one unit of fuel. */
  function Loop(st: State, c: Expr, body: Stmt, fuel: nat): (o: Outcome)
    ensures st.events <= o.st.events
    ensures Depth(o.st.env) == Depth(st.env)
    decreases fuel, body
  {
    match Eval(st.env, c)
    case Err(f) => Stop(st, f)
    case Ok(v) =>
      if v == 0 then Outcome(st, None)
      else if fuel == 0 then Stop(st, OutOfFuel)
      else
        var o := Exec(st.(events := st.events + [WhileTrue]), body, fuel - 1);
        if o.failure.Some? then o else Loop(o.st, c, body, fuel - 1)
  }

  /** The statements of a block, or of a program, in order, in the same
      environment, up to the first that fails. */
  function ExecBlock(st: State, ss: seq<Stmt>, fuel: nat): (o: Outcome)
    ensures st.events <= o.st.events
    ensures Depth(o.st.env) == Depth(st.env)
    decreases fuel, ss
  {
    if |ss| == 0 then Outcome(st, None)
    else
      var o := Exec(st, ss[0], fuel);
      if o.failure.Some? then o else ExecBlock(o.st, ss[1..], fuel)
  }

  /** `interpret`: the program's statements from the environment earlier
      programs left, printing nothing yet. */
  function Interpret(env: Env, ss: seq<Stmt>, fuel: nat): (o: Outcome)
    ensures Depth(o.st.env) == Depth(env)
  {
    ExecBlock(State(env, []), ss, fuel)
  }
}
