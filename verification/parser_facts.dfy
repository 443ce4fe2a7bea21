/** What every successful parse builds: well-formed trees (literals are
    integers, names identifiers, `=` only over a variable), and `if`
    statements whose else branch went to the nearest `if` that could
    take it. */
module ParserFacts {
  import opened Results
  import opened Lexer
  import opened Ast
  import opened Parser

  /** An operator a binary level accepts binds at that level; it is never
      `=`. */
  lemma LevelBinding(kind: TokenType, k: int)
    requires IsLevel(k)
    ensures kind in LevelOperators(k) <==> Binding(kind) == k
    ensures kind in LevelOperators(k) ==> kind != Assign
  {
  }

  // ---------------------------------------------------------------------
  // Expressions
  // ---------------------------------------------------------------------

  lemma {:induction false} ExpressionShape(toks: seq<Token>, pos: nat)
    requires Cursor(toks, pos)
    ensures Expression(toks, pos).Ok? ==> WellFormed(Expression(toks, pos).value.node)
    decreases |toks| - pos, 5, 0
  {
    LevelShape(toks, 1, pos);
    var eq := Level(toks, 1, pos);
    if eq.Ok? && Check(toks, eq.value.next, Assign) {
      ExpressionShape(toks, eq.value.next + 1);
    }
  }

  lemma {:induction false} LevelShape(toks: seq<Token>, k: int, pos: nat)
    requires IsLevel(k) && Cursor(toks, pos)
    ensures Level(toks, k, pos).Ok? ==> WellFormed(Level(toks, k, pos).value.node)
    decreases |toks| - pos, 5 - k, 1
  {
    OperandShape(toks, k, pos);
    var left := Operand(toks, k, pos);
    if left.Ok? {
      TailShape(toks, k, left.value.node, left.value.next);
    }
  }

  lemma {:induction false} OperandShape(toks: seq<Token>, k: int, pos: nat)
    requires IsLevel(k) && Cursor(toks, pos)
    ensures Operand(toks, k, pos).Ok? ==> WellFormed(Operand(toks, k, pos).value.node)
    decreases |toks| - pos, 4 - k, 2
  {
    if k == 4 {
      PrimaryShape(toks, pos);
    } else {
      LevelShape(toks, k + 1, pos);
    }
  }

  /** The loop of a binary level keeps the tree built so far well formed. */
  lemma {:induction false} TailShape(toks: seq<Token>, k: int, left: Expr, pos: nat)
    requires IsLevel(k) && Cursor(toks, pos) && WellFormed(left)
    ensures Tail(toks, k, left, pos).Ok? ==> WellFormed(Tail(toks, k, left, pos).value.node)
    decreases |toks| - pos, 5 - k, 0
  {
    if toks[pos].kind != Eof && toks[pos].kind in LevelOperators(k) {
      OperandShape(toks, k, pos + 1);
      var right := Operand(toks, k, pos + 1);
      if right.Ok? {
        LevelBinding(toks[pos].kind, k);
        TailShape(toks, k, Binary(left, toks[pos], right.value.node), right.value.next);
      }
    }
  }

  lemma {:induction false} PrimaryShape(toks: seq<Token>, pos: nat)
    requires Cursor(toks, pos)
    ensures Primary(toks, pos).Ok? ==> WellFormed(Primary(toks, pos).value.node)
    decreases |toks| - pos, 0, 0
  {
    if Check(toks, pos, LParen) {
      ExpressionShape(toks, pos + 1);
    }
  }

  // ---------------------------------------------------------------------
  // Statements
  // ---------------------------------------------------------------------

  /** A parsed statement is well formed, and if it ends in an `if` without
      an else branch, the token after it is not `else`: that `if` would
      have taken it. */
  predicate Settled(toks: seq<Token>, p: Parsed<Stmt>) {
    && p.next < |toks|
    && WellFormedStmt(p.node)
    && (OpenIf(p.node) ==> toks[p.next].kind != Else)
  }

  lemma {:induction false} StatementShape(toks: seq<Token>, pos: nat)
    requires Cursor(toks, pos)
    ensures Statement(toks, pos).Ok? ==> Settled(toks, Statement(toks, pos).value)
    decreases |toks| - pos, 0
  {
    if Check(toks, pos, Let) {
      LetShape(toks, pos + 1);
    } else if Check(toks, pos, Yap) {
      YapShape(toks, pos + 1);
    } else if Check(toks, pos, If) {
      IfShape(toks, pos + 1);
    } else if Check(toks, pos, While) {
      WhileShape(toks, pos + 1);
    } else if Check(toks, pos, LBrace) {
      BlockStatementShape(toks, pos + 1);
    } else {
      ExpressionStatementShape(toks, pos);
    }
  }

  lemma ExpressionStatementShape(toks: seq<Token>, pos: nat)
    requires Cursor(toks, pos)
    ensures ExpressionStatement(toks, pos).Ok? ==> Settled(toks, ExpressionStatement(toks, pos).value)
  {
    ExpressionShape(toks, pos);
  }

  lemma LetShape(toks: seq<Token>, pos: nat)
    requires Cursor(toks, pos)
    ensures LetStatement(toks, pos).Ok? ==> Settled(toks, LetStatement(toks, pos).value)
  {
    if Check(toks, pos, Identifier) && Check(toks, pos + 1, Assign) {
      ExpressionShape(toks, pos + 2);
    }
  }

  lemma YapShape(toks: seq<Token>, pos: nat)
    requires Cursor(toks, pos)
    ensures YapStatement(toks, pos).Ok? ==> Settled(toks, YapStatement(toks, pos).value)
  {
    if Check(toks, pos, LParen) {
      ExpressionShape(toks, pos + 1);
    }
  }

  lemma {:induction false} IfShape(toks: seq<Token>, pos: nat)
    requires Cursor(toks, pos)
    ensures IfStatement(toks, pos).Ok? ==> Settled(toks, IfStatement(toks, pos).value)
    decreases |toks| - pos, 1
  {
    if Check(toks, pos, LParen) {
      ExpressionShape(toks, pos + 1);
      var cond := Expression(toks, pos + 1);
      if cond.Ok? && Check(toks, cond.value.next, RParen) {
        var afterClose := cond.value.next + 1;
        StatementShape(toks, afterClose);
        var t := Statement(toks, afterClose);
        if t.Ok? {
          ElseTailShape(toks, cond.value.node, t.value.node, t.value.next);
        }
      }
    }
  }

  /** The else part: an `else` is taken only after a then-branch that does
      not itself end in an `if` without else. */
  lemma {:induction false} ElseTailShape(toks: seq<Token>, cond: Expr, thenBranch: Stmt, pos: nat)
    requires Cursor(toks, pos) && WellFormed(cond)
    requires Settled(toks, Parsed(thenBranch, pos))
    ensures ElseTail(toks, cond, thenBranch, pos).Ok? ==> Settled(toks, ElseTail(toks, cond, thenBranch, pos).value)
    decreases |toks| - pos, 1
  {
    if Check(toks, pos, Else) {
      StatementShape(toks, pos + 1);
    }
  }

  lemma {:induction false} WhileShape(toks: seq<Token>, pos: nat)
    requires Cursor(toks, pos)
    ensures WhileStatement(toks, pos).Ok? ==> Settled(toks, WhileStatement(toks, pos).value)
    decreases |toks| - pos, 1
  {
    if Check(toks, pos, LParen) {
      ExpressionShape(toks, pos + 1);
      var cond := Expression(toks, pos + 1);
      if cond.Ok? && Check(toks, cond.value.next, RParen) {
        StatementShape(toks, cond.value.next + 1);
      }
    }
  }

  lemma {:induction false} BlockStatementShape(toks: seq<Token>, pos: nat)
    requires Cursor(toks, pos)
    ensures BlockStatement(toks, pos).Ok? ==> Settled(toks, BlockStatement(toks, pos).value)
    decreases |toks| - pos, 2
  {
    BlockBodyShape(toks, pos);
  }

  lemma {:induction false} BlockBodyShape(toks: seq<Token>, pos: nat)
    requires Cursor(toks, pos)
    ensures BlockBody(toks, pos).Ok? ==> WellFormedBlock(BlockBody(toks, pos).value.node)
    decreases |toks| - pos, 1
  {
    if !(Check(toks, pos, RBrace) || toks[pos].kind == Eof) {
      StatementShape(toks, pos);
      var first := Statement(toks, pos);
      if first.Ok? {
        BlockBodyShape(toks, first.value.next);
        var others := BlockBody(toks, first.value.next);
        if others.Ok? {
          WellFormedCons(first.value.node, others.value.node);
        }
      }
    }
  }

  lemma WellFormedCons(s: Stmt, ss: seq<Stmt>)
    requires WellFormedStmt(s) && WellFormedBlock(ss)
    ensures WellFormedBlock([s] + ss)
  {
    assert forall k | 1 <= k < |ss| + 1 :: ([s] + ss)[k] == ss[k - 1];
  }

  lemma {:induction false} StatementsShape(toks: seq<Token>, pos: nat)
    requires Cursor(toks, pos)
    ensures Statements(toks, pos).Ok? ==> WellFormedBlock(Statements(toks, pos).value)
    decreases |toks| - pos
  {
    if toks[pos].kind != Eof {
      StatementShape(toks, pos);
      var first := Statement(toks, pos);
      if first.Ok? {
        StatementsShape(toks, first.value.next);
        var others := Statements(toks, first.value.next);
        if others.Ok? {
          WellFormedCons(first.value.node, others.value);
        }
      }
    }
  }

  /** Every program the parser accepts is well formed: this is the
      domain of the printer, whose output parses back to the same tree. */
  lemma ParseShape(toks: seq<Token>)
    requires Valid(toks)
    ensures Parse(toks).Ok? ==> WellFormedBlock(Parse(toks).value)
  {
    StatementsShape(toks, 0);
  }
}
