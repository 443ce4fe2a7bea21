/** The abstract syntax tree the parser builds. Nodes keep the tokens
    they were built from, as the C structures do: the compiler and the
    interpreter read literal values, variable names and operators from
    the token text. */
module Ast {
  import opened Results
  import opened Lexer

  /** Expressions. The C `EXPR_CALL` variant is never built by the parser
      and is not part of the model. */
  datatype Expr =
    | Literal(value: Token)
    | Variable(name: Token)
    | Binary(left: Expr, op: Token, right: Expr)

  /** Statements; an `if` has an optional else branch. */
  datatype Stmt =
    | ExprStmt(expr: Expr)
    | LetStmt(name: Token, init: Expr)
    | YapStmt(expr: Expr)
    | IfStmt(cond: Expr, thenBranch: Stmt, elseBranch: Option<Stmt>)
    | WhileStmt(cond: Expr, body: Stmt)
    | BlockStmt(stmts: seq<Stmt>)

  // ---------------------------------------------------------------------
  // Operator levels
  // ---------------------------------------------------------------------

  /** The binary-operator levels, loosest first: 1 equality, 2 comparison,
      3 term, 4 factor. */
  predicate IsLevel(k: int) {
    1 <= k <= 4
  }

  /** The token kinds a level accepts as its operators. */
  function LevelOperators(k: int): set<TokenType> {
    if k == 1 then {Equal, BangEqual}
    else if k == 2 then {Less, LessEqual, Greater, GreaterEqual}
    else if k == 3 then {Plus, Minus}
    else if k == 4 then {Star, Slash}
    else {}
  }

  /** How tightly a token binds as an infix operator: its level for the
      binary operators, 0 for `=`, and -1 for every other token. */
  function Binding(kind: TokenType): (b: int)
    ensures -1 <= b <= 4
    ensures IsLevel(b) <==> kind in LevelOperators(b)
  {
    if kind == Equal || kind == BangEqual then 1
    else if Less <= kind <= GreaterEqual then 2
    else if kind == Plus || kind == Minus then 3
    else if kind == Star || kind == Slash then 4
    else if kind == Assign then 0
    else -1
  }

  // ---------------------------------------------------------------------
  // Shape of parser output
  // ---------------------------------------------------------------------

  /** The shape every parsed expression has: literals are integer tokens,
      variables identifier tokens, every operator is a binary operator or
      `=`, and `=` always has a variable on its left. */
  predicate WellFormed(e: Expr) {
    match e
    case Literal(t) => t.kind == Int
    case Variable(t) => t.kind == Identifier
    case Binary(l, op, r) =>
      && WellFormed(l) && WellFormed(r)
      && 0 <= Binding(op.kind)
      && (op.kind == Assign ==> l.Variable?)
  }

  /** True when a statement ends in an `if` without an else branch, so an
      `else` written after it would attach to that inner `if`. */
  predicate OpenIf(s: Stmt) {
    match s
    case IfStmt(_, _, None) => true
    case IfStmt(_, _, Some(f)) => OpenIf(f)
    case WhileStmt(_, body) => OpenIf(body)
    case _ => false
  }

  /** The shape every parsed statement has: well-formed expressions, `let`
      names that are identifiers, and no then-branch that ends in an open
      `if` when an else branch follows (it would have taken the else). */
  predicate WellFormedStmt(s: Stmt) {
    match s
    case ExprStmt(e) => WellFormed(e)
    case LetStmt(name, init) => name.kind == Identifier && WellFormed(init)
    case YapStmt(e) => WellFormed(e)
    case IfStmt(c, t, f) =>
      && WellFormed(c) && WellFormedStmt(t)
      && (f.Some? ==> WellFormedStmt(f.value) && !OpenIf(t))
    case WhileStmt(c, body) => WellFormed(c) && WellFormedStmt(body)
    case BlockStmt(ss) => WellFormedBlock(ss)
  }

  predicate WellFormedBlock(ss: seq<Stmt>) {
    forall k | 0 <= k < |ss| :: WellFormedStmt(ss[k])
  }
}
