/** The recursive-descent parser. As in the C parser, the tokens are fixed
    and a cursor moves over them; every parsing function takes the cursor
    position and returns the node with the position after it. The last
    token is always end-of-file, and the cursor never moves past an
    end-of-file token. Any error aborts the whole parse. */
module Parser {
  import opened Results
  import opened Lexer
  import opened Ast

  /** What went wrong: one constructor per diagnostic of the C parser.
      The error kept is the first diagnostic printed: when the expression
      inside parentheses fails, the C parser prints its diagnostic and then
      also "Expected ')' after expression"; here the inner error is kept. */
  datatype ParseError =
    | UnexpectedToken(found: Token)
    | ExpectedRParenAfterExpr
    | InvalidAssignmentTarget
    | ExpectedLetName
    | ExpectedLetAssign
    | ExpectedLetSemicolon
    | ExpectedYapLParen
    | ExpectedYapRParen
    | ExpectedYapSemicolon
    | ExpectedIfLParen
    | ExpectedIfRParen
    | ExpectedWhileLParen
    | ExpectedWhileRParen
    | ExpectedRBrace
    | ExpectedSemicolon

  /** A parsed node and the cursor position after it. */
  datatype Parsed<T> = Parsed(node: T, next: nat)

  /** Token input as the lexer produces it: it ends with end-of-file. */
  predicate Valid(toks: seq<Token>) {
    |toks| > 0 && toks[|toks| - 1].kind == Eof
  }

  /** A cursor position inside valid input. */
  predicate Cursor(toks: seq<Token>, pos: nat) {
    Valid(toks) && pos < |toks|
  }

  /** The C `check`: the current token has this kind and is not
      end-of-file. */
  predicate Check(toks: seq<Token>, pos: nat, kind: TokenType)
    requires Cursor(toks, pos)
  {
    toks[pos].kind != Eof && toks[pos].kind == kind
  }

  // ---------------------------------------------------------------------
  // Expressions
  // ---------------------------------------------------------------------

  /** `expression := equality ( "=" expression )?`; the `=` is accepted
      after any equality but builds a node only over a variable target. */
  function Expression(toks: seq<Token>, pos: nat): (r: Result<Parsed<Expr>, ParseError>)
    requires Cursor(toks, pos)
    ensures r.Ok? ==> pos < r.value.next < |toks|
    decreases |toks| - pos, 5, 0
  {
    var eq :- Level(toks, 1, pos);
    if Check(toks, eq.next, Assign) then
      var value :- Expression(toks, eq.next + 1);
      if eq.node.Variable? then
        Ok(Parsed(Binary(eq.node, toks[eq.next], value.node), value.next))
      else
        Err(InvalidAssignmentTarget)
    else
      Ok(eq)
  }

  /** One binary level: its operand, then any number of its operators each
      followed by an operand, grouped to the left. */
  function Level(toks: seq<Token>, k: int, pos: nat): (r: Result<Parsed<Expr>, ParseError>)
    requires IsLevel(k) && Cursor(toks, pos)
    ensures r.Ok? ==> pos < r.value.next < |toks|
    decreases |toks| - pos, 5 - k, 1
  {
    var left :- Operand(toks, k, pos);
    Tail(toks, k, left.node, left.next)
  }

  /** The operand of level k: the next level, or a primary below factor. */
  function Operand(toks: seq<Token>, k: int, pos: nat): (r: Result<Parsed<Expr>, ParseError>)
    requires IsLevel(k) && Cursor(toks, pos)
    ensures r.Ok? ==> pos < r.value.next < |toks|
    decreases |toks| - pos, 4 - k, 2
  {
    if k == 4 then Primary(toks, pos) else Level(toks, k + 1, pos)
  }

  /** The loop of the C `parse_binary`, with `left` the expression parsed
      so far. */
  function Tail(toks: seq<Token>, k: int, left: Expr, pos: nat): (r: Result<Parsed<Expr>, ParseError>)
    requires IsLevel(k) && Cursor(toks, pos)
    ensures r.Ok? ==> pos <= r.value.next < |toks|
    decreases |toks| - pos, 5 - k, 0
  {
    if toks[pos].kind != Eof && toks[pos].kind in LevelOperators(k) then
      var right :- Operand(toks, k, pos + 1);
      Tail(toks, k, Binary(left, toks[pos], right.node), right.next)
    else
      Ok(Parsed(left, pos))
  }

  /** An integer literal, a variable, or a parenthesised expression. */
  function Primary(toks: seq<Token>, pos: nat): (r: Result<Parsed<Expr>, ParseError>)
    requires Cursor(toks, pos)
    ensures r.Ok? ==> pos < r.value.next < |toks|
    ensures r.Err? && !Check(toks, pos, LParen) ==> r.error == UnexpectedToken(toks[pos])
    decreases |toks| - pos, 0, 0
  {
    if Check(toks, pos, Int) then Ok(Parsed(Literal(toks[pos]), pos + 1))
    else if Check(toks, pos, Identifier) then Ok(Parsed(Variable(toks[pos]), pos + 1))
    else if Check(toks, pos, LParen) then
      var inner :- Expression(toks, pos + 1);
      if Check(toks, inner.next, RParen) then Ok(Parsed(inner.node, inner.next + 1))
      else Err(ExpectedRParenAfterExpr)
    else
      Err(UnexpectedToken(toks[pos]))
  }

  // ---------------------------------------------------------------------
  // Statements
  // ---------------------------------------------------------------------

  /** The C `match` used as a demand: consumes one token of the given
      kind, or fails with `e`. */
  function Expect(toks: seq<Token>, pos: nat, kind: TokenType, e: ParseError): (r: Result<nat, ParseError>)
    requires Cursor(toks, pos)
    ensures r.Ok? <==> Check(toks, pos, kind)
    ensures r.Ok? ==> r.value == pos + 1 < |toks|
    ensures r.Err? ==> r.error == e
  {
    if Check(toks, pos, kind) then Ok(pos + 1) else Err(e)
  }

  /** A statement: chosen by its first token, an expression statement
      otherwise. */
  function Statement(toks: seq<Token>, pos: nat): (r: Result<Parsed<Stmt>, ParseError>)
    requires Cursor(toks, pos)
    ensures r.Ok? ==> pos < r.value.next < |toks|
    decreases |toks| - pos, 0
  {
    if Check(toks, pos, Let) then LetStatement(toks, pos + 1)
    else if Check(toks, pos, Yap) then YapStatement(toks, pos + 1)
    else if Check(toks, pos, If) then IfStatement(toks, pos + 1)
    else if Check(toks, pos, While) then WhileStatement(toks, pos + 1)
    else if Check(toks, pos, LBrace) then BlockStatement(toks, pos + 1)
    else ExpressionStatement(toks, pos)
  }

  /** An expression followed by `;`. */
  function ExpressionStatement(toks: seq<Token>, pos: nat): (r: Result<Parsed<Stmt>, ParseError>)
    requires Cursor(toks, pos)
    ensures r.Ok? ==> pos < r.value.next < |toks|
  {
    var e :- Expression(toks, pos);
    var after :- Expect(toks, e.next, Semicolon, ExpectedSemicolon);
    Ok(Parsed(ExprStmt(e.node), after))
  }

  /** `{ statement* }`, after the `{`. */
  function BlockStatement(toks: seq<Token>, pos: nat): (r: Result<Parsed<Stmt>, ParseError>)
    requires Cursor(toks, pos)
    ensures r.Ok? ==> pos < r.value.next < |toks|
    decreases |toks| - pos, 2
  {
    var body :- BlockBody(toks, pos);
    var after :- Expect(toks, body.next, RBrace, ExpectedRBrace);
    Ok(Parsed(BlockStmt(body.node), after))
  }

  /** `let NAME = expression ;`, after the `let`. */
  function LetStatement(toks: seq<Token>, pos: nat): (r: Result<Parsed<Stmt>, ParseError>)
    requires Cursor(toks, pos)
    ensures r.Ok? ==> pos < r.value.next < |toks|
  {
    var afterName :- Expect(toks, pos, Identifier, ExpectedLetName);
    var afterAssign :- Expect(toks, afterName, Assign, ExpectedLetAssign);
    var init :- Expression(toks, afterAssign);
    var after :- Expect(toks, init.next, Semicolon, ExpectedLetSemicolon);
    Ok(Parsed(LetStmt(toks[pos], init.node), after))
  }

  /** `yap ( expression ) ;`, after the `yap`. */
  function YapStatement(toks: seq<Token>, pos: nat): (r: Result<Parsed<Stmt>, ParseError>)
    requires Cursor(toks, pos)
    ensures r.Ok? ==> pos < r.value.next < |toks|
  {
    var afterParen :- Expect(toks, pos, LParen, ExpectedYapLParen);
    var e :- Expression(toks, afterParen);
    var afterClose :- Expect(toks, e.next, RParen, ExpectedYapRParen);
    var after :- Expect(toks, afterClose, Semicolon, ExpectedYapSemicolon);
    Ok(Parsed(YapStmt(e.node), after))
  }

  /** `if ( expression ) statement ( else statement )?`, after the `if`;
      an `else` is taken by the nearest `if` that can take it. */
  function IfStatement(toks: seq<Token>, pos: nat): (r: Result<Parsed<Stmt>, ParseError>)
    requires Cursor(toks, pos)
    ensures r.Ok? ==> pos < r.value.next < |toks|
    decreases |toks| - pos, 1
  {
    var afterParen :- Expect(toks, pos, LParen, ExpectedIfLParen);
    var cond :- Expression(toks, afterParen);
    var afterClose :- Expect(toks, cond.next, RParen, ExpectedIfRParen);
    var thenBranch :- Statement(toks, afterClose);
    ElseTail(toks, cond.node, thenBranch.node, thenBranch.next)
  }

  /** The optional `else statement` after an if's then-branch. */
  function ElseTail(toks: seq<Token>, cond: Expr, thenBranch: Stmt, pos: nat): (r: Result<Parsed<Stmt>, ParseError>)
    requires Cursor(toks, pos)
    ensures r.Ok? ==> pos <= r.value.next < |toks|
    ensures r.Ok? ==> r.value.node.IfStmt? && r.value.node.cond == cond && r.value.node.thenBranch == thenBranch
    decreases |toks| - pos, 1
  {
    if Check(toks, pos, Else) then
      var elseBranch :- Statement(toks, pos + 1);
      Ok(Parsed(IfStmt(cond, thenBranch, Some(elseBranch.node)), elseBranch.next))
    else
      Ok(Parsed(IfStmt(cond, thenBranch, None), pos))
  }

  /** `while ( expression ) statement`, after the `while`. */
  function WhileStatement(toks: seq<Token>, pos: nat): (r: Result<Parsed<Stmt>, ParseError>)
    requires Cursor(toks, pos)
    ensures r.Ok? ==> pos < r.value.next < |toks|
    decreases |toks| - pos, 1
  {
    var afterParen :- Expect(toks, pos, LParen, ExpectedWhileLParen);
    var cond :- Expression(toks, afterParen);
    var afterClose :- Expect(toks, cond.next, RParen, ExpectedWhileRParen);
    var body :- Statement(toks, afterClose);
    Ok(Parsed(WhileStmt(cond.node, body.node), body.next))
  }

  /** The statements of a block, up to (not including) the `}` or the
      end-of-file token that stops it. */
  function BlockBody(toks: seq<Token>, pos: nat): (r: Result<Parsed<seq<Stmt>>, ParseError>)
    requires Cursor(toks, pos)
    ensures r.Ok? ==> pos <= r.value.next < |toks|
    ensures r.Ok? ==> toks[r.value.next].kind == RBrace || toks[r.value.next].kind == Eof
    decreases |toks| - pos, 1
  {
    if Check(toks, pos, RBrace) || toks[pos].kind == Eof then Ok(Parsed([], pos))
    else
      var first :- Statement(toks, pos);
      var others :- BlockBody(toks, first.next);
      Ok(Parsed([first.node] + others.node, others.next))
  }

  /** The statements from `pos` up to end-of-file; the first error is the
      result. */
  function Statements(toks: seq<Token>, pos: nat): (r: Result<seq<Stmt>, ParseError>)
    requires Cursor(toks, pos)
    decreases |toks| - pos
  {
    if toks[pos].kind == Eof then Ok([])
    else
      var first :- Statement(toks, pos);
      var others :- Statements(toks, first.next);
      Ok([first.node] + others)
  }

  /** The C `parse`: the whole token array as a statement list. */
  function Parse(toks: seq<Token>): (r: Result<seq<Stmt>, ParseError>)
    requires Valid(toks)
  {
    Statements(toks, 0)
  }
}
