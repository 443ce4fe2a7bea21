/** What the interpreter's statements do: which branch of an `if` runs,
    how a `while` tests again after each pass, why a block opens no scope,
    and where `=` is accepted. */
module InterpreterFacts {
  import opened Results
  import opened Ast
  import opened Compiler
  import opened Environment
  import opened Interpreter
  import Values
  import Lexer

  // ---------------------------------------------------------------------
  // Assignment
  // ---------------------------------------------------------------------

  /** `=` anywhere but at the top of an expression statement makes the
      statement fail before it prints or binds anything. */
  lemma AssignmentElsewhere(st: State, e: Expr, name: Lexer.Token, fuel: nat)
    requires !AssignmentFree(e)
    ensures Eval(st.env, e).Err?
    ensures Exec(st, YapStmt(e), fuel) == Stop(st, Eval(st.env, e).error)
    ensures Exec(st, LetStmt(name, e), fuel) == Stop(st, Eval(st.env, e).error)
    ensures !IsReassignment(e) ==> Exec(st, ExprStmt(e), fuel) == Stop(st, Eval(st.env, e).error)
  {
  }

  /** `name = e;` evaluates e, then overwrites the binding a lookup of
      name finds, and fails when there is none. */
  lemma Reassignment(st: State, target: Lexer.Token, eq: Lexer.Token, e: Expr, fuel: nat)
    requires IsAssignment(eq.lexeme)
    ensures var r := Exec(st, ExprStmt(Binary(Variable(target), eq, e)), fuel);
      var name := target.lexeme;
      && (r.failure.None? <==> Eval(st.env, e).Ok? && Lookup(st.env, name).Ok?)
      && (Eval(st.env, e).Err? ==> r == Stop(st, Eval(st.env, e).error))
      && (Eval(st.env, e).Ok? && Lookup(st.env, name).Err? ==> r == Stop(st, Undefined(name)))
      && (r.failure.None? ==>
            && Lookup(r.st.env, name) == Ok(Eval(st.env, e).value)
            && (forall other | other != name :: Lookup(r.st.env, other) == Lookup(st.env, other))
            && r.st.events == st.events + [Reassigned(name, Eval(st.env, e).value)])
  {
    var name := target.lexeme;
    if Eval(st.env, e).Ok? {
      var v := Eval(st.env, e).value;
      AssignFails(st.env, name, v);
      if Assign(st.env, name, v).Ok? {
        forall other | other != name
          ensures Lookup(Assign(st.env, name, v).value, other) == Lookup(st.env, other)
        {
          AssignLookup(st.env, name, v, other);
        }
        AssignLookup(st.env, name, v, name);
      }
    }
  }

  /** `let name = e;` binds name to the value of e and changes no other
      name. */
  lemma LetBinds(st: State, name: Lexer.Token, e: Expr, fuel: nat)
    ensures var r := Exec(st, LetStmt(name, e), fuel);
      && (r.failure.None? <==> Eval(st.env, e).Ok?)
      && (Eval(st.env, e).Err? ==> r == Stop(st, Eval(st.env, e).error))
      && (r.failure.None? ==>
            && Lookup(r.st.env, name.lexeme) == Ok(Eval(st.env, e).value)
            && (forall other | other != name.lexeme :: Lookup(r.st.env, other) == Lookup(st.env, other))
            && r.st.events == st.events + [Defined(name.lexeme, Eval(st.env, e).value)])
  {
    if Eval(st.env, e).Ok? {
      var v := Eval(st.env, e).value;
      forall other | other != name.lexeme
        ensures Lookup(Define(st.env, name.lexeme, v), other) == Lookup(st.env, other)
      {
        DefineLookup(st.env, name.lexeme, v, other);
      }
      DefineLookup(st.env, name.lexeme, v, name.lexeme);
    }
  }

  // ---------------------------------------------------------------------
  // Control flow
  // ---------------------------------------------------------------------

  /** An `if` whose condition fails prints nothing. Otherwise, after
      printing the condition, it runs its then branch on a nonzero value,
      its else branch (if any) on 0, and nothing else. */
  lemma IfChoice(st: State, c: Expr, t: Stmt, f: Option<Stmt>, fuel: nat)
    ensures Eval(st.env, c).Err? ==> Exec(st, IfStmt(c, t, f), fuel) == Stop(st, Eval(st.env, c).error)
    ensures Eval(st.env, c).Ok? ==>
      var v := Eval(st.env, c).value;
      var st1 := st.(events := st.events + [IfCondition(v)]);
      var r := Exec(st, IfStmt(c, t, f), fuel);
      && (v != 0 ==> r == Exec(st1, t, fuel))
      && (v == 0 && f.Some? ==> r == Exec(st1, f.value, fuel))
      && (v == 0 && f.None? ==> r == Outcome(st1, None))
  {
  }

  /** A `while` whose condition fails stops there; one whose condition is
      0 changes nothing and prints nothing; one whose condition is not 0
      prints, runs its body, and then, unless the body failed, is the same
      `while` again from the state the body left, with one iteration fewer
      to go. A body that fails stops the loop with what it printed. */
  lemma WhileRetest(st: State, c: Expr, body: Stmt, fuel: nat)
    ensures Eval(st.env, c).Err? ==> Exec(st, WhileStmt(c, body), fuel) == Stop(st, Eval(st.env, c).error)
    ensures Eval(st.env, c) == Ok(0) ==> Exec(st, WhileStmt(c, body), fuel) == Outcome(st, None)
    ensures Eval(st.env, c).Ok? && Eval(st.env, c).value != 0 && fuel == 0 ==>
      Exec(st, WhileStmt(c, body), fuel) == Stop(st, OutOfFuel)
    ensures Eval(st.env, c).Ok? && Eval(st.env, c).value != 0 && fuel > 0 ==>
      var r1 := Exec(st.(events := st.events + [WhileTrue]), body, fuel - 1);
      && (r1.failure.Some? ==> Exec(st, WhileStmt(c, body), fuel) == r1)
      && (r1.failure.None? ==> Exec(st, WhileStmt(c, body), fuel) == Exec(r1.st, WhileStmt(c, body), fuel - 1))
  {
  }

  /** A `while` that finishes leaves its condition 0. */
  lemma {:induction false} WhileExit(st: State, c: Expr, body: Stmt, fuel: nat)
    requires Exec(st, WhileStmt(c, body), fuel).failure.None?
    ensures Eval(Exec(st, WhileStmt(c, body), fuel).st.env, c) == Ok(0)
    decreases fuel
  {
    var v := Eval(st.env, c).value;
    if v != 0 {
      var r1 := Exec(st.(events := st.events + [WhileTrue]), body, fuel - 1);
      WhileExit(r1.st, c, body, fuel - 1);
    }
  }

  // ---------------------------------------------------------------------
  // Blocks
  // ---------------------------------------------------------------------

  /** Running a + b is running a, then b from where a left off; when a
      fails, b never runs and the run stops with what a printed. */
  lemma {:induction false} BlockConcat(st: State, a: seq<Stmt>, b: seq<Stmt>, fuel: nat)
    ensures ExecBlock(st, a + b, fuel) ==
      var o := ExecBlock(st, a, fuel);
      if o.failure.Some? then o else ExecBlock(o.st, b, fuel)
    decreases a
  {
    if |a| == 0 {
      assert a + b == b;
    } else {
      assert (a + b)[0] == a[0] && (a + b)[1..] == a[1..] + b;
      if Exec(st, a[0], fuel).failure.None? {
        BlockConcat(Exec(st, a[0], fuel).st, a[1..], b, fuel);
      }
    }
  }

  /** Whatever a program prints before a statement that fails stays
      printed: the events of a + b begin with those of a run of a alone,
      even when b fails. */
  lemma KeepsPrinted(st: State, a: seq<Stmt>, b: seq<Stmt>, fuel: nat)
    ensures ExecBlock(st, a, fuel).st.events <= ExecBlock(st, a + b, fuel).st.events
  {
    BlockConcat(st, a, b, fuel);
  }

  /** `yap(1); yap(x);` with no `x` bound prints its first line, then
      stops at the undefined name with that line still printed. */
  lemma PrintedBeforeFailure(fuel: nat)
    ensures var one := YapStmt(Literal(Lexer.Token(Lexer.Int, "1", 1)));
      var x := YapStmt(Variable(Lexer.Token(Lexer.Identifier, "x", 1)));
      var env := NewEnvironment(None);
      Interpret(env, [one, x], fuel) == Outcome(State(env, [Yapped(1)]), Some(Undefined("x")))
  {
    Values.AtoiDigits("1");
    var one := YapStmt(Literal(Lexer.Token(Lexer.Int, "1", 1)));
    var x := YapStmt(Variable(Lexer.Token(Lexer.Identifier, "x", 1)));
    var env := NewEnvironment(None);
    assert Exec(State(env, []), one, fuel) == Outcome(State(env, [Yapped(1)]), None);
    assert Lookup(env, "x").Err?;
    var st1 := State(env, [Yapped(1)]);
    assert Exec(st1, x, fuel) == Stop(st1, Undefined("x"));
    assert [one, x][1..] == [x];
    assert ExecBlock(st1, [x], fuel) == Stop(st1, Undefined("x"));
  }

  /** A block opens no scope: a block among statements runs exactly as its
      statements would in its place. */
  lemma Flatten(st: State, a: seq<Stmt>, inner: seq<Stmt>, b: seq<Stmt>, fuel: nat)
    ensures ExecBlock(st, a + [BlockStmt(inner)] + b, fuel) == ExecBlock(st, a + inner + b, fuel)
  {
    BlockConcat(st, a, [BlockStmt(inner)] + b, fuel);
    BlockConcat(st, a, inner + b, fuel);
    assert a + [BlockStmt(inner)] + b == a + ([BlockStmt(inner)] + b);
    assert a + inner + b == a + (inner + b);
    if ExecBlock(st, a, fuel).failure.None? {
      var st1 := ExecBlock(st, a, fuel).st;
      BlockConcat(st1, inner, b, fuel);
      var bs := [BlockStmt(inner)] + b;
      assert bs[0] == BlockStmt(inner) && bs[1..] == b;
    }
  }

  /** In particular, a `let` inside a block is still bound after it. */
  lemma LetInBlock(st: State, name: Lexer.Token, e: Expr, fuel: nat)
    requires Eval(st.env, e).Ok?
    ensures var r := Exec(st, BlockStmt([LetStmt(name, e)]), fuel);
      r.failure.None? && Lookup(r.st.env, name.lexeme) == Ok(Eval(st.env, e).value)
  {
    LetBinds(st, name, e, fuel);
    var ss := [LetStmt(name, e)];
    var st1 := Exec(st, ss[0], fuel).st;
    assert ss[1..] == [];
    assert ExecBlock(st1, ss[1..], fuel) == Outcome(st1, None);
    assert ExecBlock(st, ss, fuel) == Outcome(st1, None);
  }
}
