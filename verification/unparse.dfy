/** A printer from syntax trees back to tokens, used as the parser's
    partner: printing with the fewest parentheses the precedence rules
    allow and parsing the result gives the tree back. That the minimal
    printing is read back unchanged is what pins down the parser's four
    left-associative precedence levels and its right-associative `=`. */
module Unparse {
  import opened Results
  import opened Lexer
  import opened Ast
  import opened Parser

  // Tokens the printer makes up; their line numbers are irrelevant.
  const LParenTok := Token(LParen, "(", 0)
  const RParenTok := Token(RParen, ")", 0)
  const LBraceTok := Token(LBrace, "{", 0)
  const RBraceTok := Token(RBrace, "}", 0)
  const SemicolonTok := Token(Semicolon, ";", 0)
  const AssignTok := Token(Assign, "=", 0)
  const LetTok := Token(Let, "let", 0)
  const YapTok := Token(Yap, "yap", 0)
  const IfTok := Token(If, "if", 0)
  const ElseTok := Token(Else, "else", 0)
  const WhileTok := Token(While, "while", 0)
  const EofTok := Token(Eof, "", 0)

  /** The level an expression binds at: 5 for a literal or variable, the
      operator's level for a binary node, and 0 for `=` (and for a node
      whose token is no operator, which the parser never builds). */
  function Prec(e: Expr): (p: nat)
    ensures p <= 5
  {
    match e
    case Binary(_, op, _) => if Binding(op.kind) < 0 then 0 else Binding(op.kind)
    case _ => 5
  }

  /** The tokens of e in a context that binds at level k (0 for a whole
      expression, 1 to 4 for the binary levels, 5 for a primary):
      parenthesised exactly when e binds more loosely than the context. */
  function Print(e: Expr, k: int): (ts: seq<Token>)
    requires 0 <= k <= 5
    ensures |ts| > 0
    ensures WellFormed(e) ==> ts[0].kind == Int || ts[0].kind == Identifier || ts[0].kind == LParen
    decreases e, if Prec(e) < k then 1 else 0
  {
    if Prec(e) < k then [LParenTok] + Print(e, 0) + [RParenTok]
    else match e
      case Literal(t) => [t]
      case Variable(t) => [t]
      case Binary(l, op, r) =>
        if op.kind == Assign then Print(l, 1) + [op] + Print(r, 0)
        else Print(l, Prec(e)) + [op] + Print(r, Prec(e) + 1)
  }

  /** The tokens of a statement. */
  function PrintStmt(s: Stmt): (ts: seq<Token>)
    ensures |ts| > 0
    ensures WellFormedStmt(s) ==> StartsStatement(ts[0].kind)
  {
    match s
    case ExprStmt(e) => Print(e, 0) + [SemicolonTok]
    case LetStmt(name, init) => [LetTok, name, AssignTok] + Print(init, 0) + [SemicolonTok]
    case YapStmt(e) => [YapTok, LParenTok] + Print(e, 0) + [RParenTok, SemicolonTok]
    case IfStmt(c, t, f) => Guard(IfTok, c) + PrintStmt(t) + PrintElse(f)
    case WhileStmt(c, body) => Guard(WhileTok, c) + PrintStmt(body)
    case BlockStmt(ss) => [LBraceTok] + PrintBlock(ss) + [RBraceTok]
  }

  /** The else branch of an `if`, if it has one. */
  function PrintElse(f: Option<Stmt>): (ts: seq<Token>)
    ensures f.Some? ==> |ts| > 1 && ts[0] == ElseTok
    ensures f.None? ==> ts == []
  {
    match f
    case None => []
    case Some(g) => [ElseTok] + PrintStmt(g)
  }

  /** A keyword followed by a parenthesised condition, as `if` and
      `while` start. */
  function Guard(keyword: Token, c: Expr): (ts: seq<Token>)
    ensures |ts| > 3 && ts[0] == keyword
  {
    [keyword, LParenTok] + Print(c, 0) + [RParenTok]
  }

  /** The tokens of a statement list. */
  function PrintBlock(ss: seq<Stmt>): (ts: seq<Token>)
    ensures |ss| > 0 ==> |ts| > 0
    ensures |ss| > 0 && WellFormedStmt(ss[0]) ==> StartsStatement(ts[0].kind)
  {
    if |ss| == 0 then [] else PrintStmt(ss[0]) + PrintBlock(ss[1..])
  }

  /** The kinds a printed statement can start with. */
  predicate StartsStatement(k: TokenType) {
    k in {Let, Yap, If, While, LBrace, Int, Identifier, LParen}
  }

  // ---------------------------------------------------------------------
  // Placing printed tokens in the parser's input
  // ---------------------------------------------------------------------

  /** The tokens p occur in toks from index pos on. */
  predicate Placed(toks: seq<Token>, pos: nat, p: seq<Token>) {
    pos + |p| <= |toks| && toks[pos..pos + |p|] == p
  }

  lemma Split(toks: seq<Token>, pos: nat, a: seq<Token>, b: seq<Token>)
    requires Placed(toks, pos, a + b)
    ensures Placed(toks, pos, a) && Placed(toks, pos + |a|, b)
  {
    assert toks[pos..pos + |a|] == toks[pos..pos + |a + b|][..|a|];
    assert toks[pos + |a|..pos + |a| + |b|] == toks[pos..pos + |a + b|][|a|..];
  }

  lemma One(toks: seq<Token>, pos: nat, t: Token)
    requires Placed(toks, pos, [t])
    ensures toks[pos] == t
  {
    assert toks[pos..pos + 1][0] == toks[pos];
  }

  lemma Elements(toks: seq<Token>, pos: nat, p: seq<Token>)
    requires Placed(toks, pos, p)
    ensures forall i | 0 <= i < |p| :: toks[pos + i] == p[i]
  {
    forall i | 0 <= i < |p|
      ensures toks[pos + i] == p[i]
    {
      assert toks[pos..pos + |p|][i] == toks[pos + i];
    }
  }

  /** A placed sequence a + m + b places each of its three parts. */
  lemma Framed(toks: seq<Token>, pos: nat, a: seq<Token>, m: seq<Token>, b: seq<Token>)
    requires Placed(toks, pos, a + m + b)
    ensures Placed(toks, pos, a) && Placed(toks, pos + |a|, m) && Placed(toks, pos + |a| + |m|, b)
  {
    Split(toks, pos, a + m, b);
    Split(toks, pos, a, m);
  }

  lemma Two(toks: seq<Token>, pos: nat, x: Token, y: Token)
    requires Placed(toks, pos, [x, y])
    ensures toks[pos] == x && toks[pos + 1] == y
  {
    Elements(toks, pos, [x, y]);
  }

  lemma Three(toks: seq<Token>, pos: nat, x: Token, y: Token, z: Token)
    requires Placed(toks, pos, [x, y, z])
    ensures toks[pos] == x && toks[pos + 1] == y && toks[pos + 2] == z
  {
    Elements(toks, pos, [x, y, z]);
  }

  lemma Split3(toks: seq<Token>, pos: nat, a: seq<Token>, t: Token, b: seq<Token>)
    requires Placed(toks, pos, a + [t] + b)
    ensures Placed(toks, pos, a) && toks[pos + |a|] == t && Placed(toks, pos + |a| + 1, b)
  {
    Split(toks, pos, a + [t], b);
    Split(toks, pos, a, [t]);
    One(toks, pos + |a|, t);
  }

  lemma Split4(toks: seq<Token>, pos: nat, a: seq<Token>, b: seq<Token>, t: Token, c: seq<Token>)
    requires Placed(toks, pos, a + b + [t] + c)
    ensures Placed(toks, pos, a) && Placed(toks, pos + |a|, b)
    ensures toks[pos + |a| + |b|] == t && Placed(toks, pos + |a| + |b| + 1, c)
  {
    Split(toks, pos, a + b + [t], c);
    Split(toks, pos, a + b, [t]);
    Split(toks, pos, a, b);
    One(toks, pos + |a| + |b|, t);
  }

  /** The levels a binary node prints its operands at: `=` is right
      associative, every other operator left associative. */
  function LeftSide(e: Expr): int
    requires e.Binary?
  {
    if e.op.kind == Assign then 1 else Prec(e)
  }
  function RightSide(e: Expr): int
    requires e.Binary?
  {
    if e.op.kind == Assign then 0 else Prec(e) + 1
  }

  /** The number of tokens Print(e, k) has. */
  function Width(e: Expr, k: int): (n: nat)
    requires 0 <= k <= 5
    ensures n > 0
    decreases e, if Prec(e) < k then 1 else 0
  {
    if Prec(e) < k then Width(e, 0) + 2
    else match e
      case Binary(l, _, r) => Width(l, LeftSide(e)) + 1 + Width(r, RightSide(e))
      case _ => 1
  }

  /** The tokens of Print(e, k) occur in toks from index pos on, stated
      token by token rather than as a sequence. */
  predicate PrintedAt(toks: seq<Token>, pos: int, e: Expr, k: int)
    requires 0 <= k <= 5
    decreases e, if Prec(e) < k then 1 else 0
  {
    && 0 <= pos && pos + Width(e, k) <= |toks|
    && if Prec(e) < k then
         && toks[pos].kind == LParen
         && PrintedAt(toks, pos + 1, e, 0)
         && toks[pos + 1 + Width(e, 0)].kind == RParen
       else match e
         case Literal(t) => toks[pos] == t
         case Variable(t) => toks[pos] == t
         case Binary(l, op, r) =>
           && PrintedAt(toks, pos, l, LeftSide(e))
           && toks[pos + Width(l, LeftSide(e))] == op
           && PrintedAt(toks, pos + Width(l, LeftSide(e)) + 1, r, RightSide(e))
  }

  lemma {:induction false} PrintWidth(e: Expr, k: int)
    requires 0 <= k <= 5
    ensures |Print(e, k)| == Width(e, k)
    decreases e, if Prec(e) < k then 1 else 0
  {
    if Prec(e) < k {
      PrintWidth(e, 0);
    } else if e.Binary? {
      PrintWidth(e.left, LeftSide(e));
      PrintWidth(e.right, RightSide(e));
    }
  }

  /** Placing the printed sequence places every token of it. */
  lemma {:induction false} PlacedPrinted(toks: seq<Token>, pos: nat, e: Expr, k: int)
    requires 0 <= k <= 5 && Placed(toks, pos, Print(e, k))
    ensures PrintedAt(toks, pos, e, k)
    decreases e, if Prec(e) < k then 1 else 0, 1
  {
    PrintWidth(e, k);
    if Prec(e) < k {
      PlacedParenthesised(toks, pos, e, k);
    } else if e.Binary? {
      var pl, pr := Print(e.left, LeftSide(e)), Print(e.right, RightSide(e));
      assert Print(e, k) == pl + [e.op] + pr;
      PlacedBinary(toks, pos, e, k, pl, pr);
    } else {
      One(toks, pos, Print(e, k)[0]);
    }
  }

  lemma {:induction false} PlacedParenthesised(toks: seq<Token>, pos: nat, e: Expr, k: int)
    requires 0 <= k <= 5 && Prec(e) < k && Placed(toks, pos, Print(e, k))
    ensures PrintedAt(toks, pos, e, k)
    decreases e, 1, 0
  {
    var inner := Print(e, 0);
    assert Print(e, k) == [LParenTok] + inner + [RParenTok];
    Split(toks, pos, [LParenTok] + inner, [RParenTok]);
    Split(toks, pos, [LParenTok], inner);
    One(toks, pos, LParenTok);
    One(toks, pos + 1 + |inner|, RParenTok);
    PrintWidth(e, 0);
    PlacedPrinted(toks, pos + 1, e, 0);
  }

  lemma {:induction false} PlacedBinary(toks: seq<Token>, pos: nat, e: Expr, k: int, pl: seq<Token>, pr: seq<Token>)
    requires 0 <= k <= 5 && e.Binary? && k <= Prec(e)
    requires pl == Print(e.left, LeftSide(e)) && pr == Print(e.right, RightSide(e))
    requires Placed(toks, pos, pl + [e.op] + pr)
    ensures PrintedAt(toks, pos, e, k)
    decreases e, 0, 0
  {
    var mid := pos + |pl|;
    OperatorPlaced(toks, pos, pl, e.op, pr, mid);
    PrintWidth(e.left, LeftSide(e));
    PlacedPrinted(toks, pos, e.left, LeftSide(e));
    PlacedPrinted(toks, mid + 1, e.right, RightSide(e));
    PrintedBinary(toks, pos, e, k, mid);
  }

  /** Split3 with the operator's position named. */
  lemma OperatorPlaced(toks: seq<Token>, pos: nat, a: seq<Token>, t: Token, b: seq<Token>, mid: nat)
    requires Placed(toks, pos, a + [t] + b) && mid == pos + |a|
    ensures Placed(toks, pos, a) && mid < |toks| && toks[mid] == t && Placed(toks, mid + 1, b)
  {
    Split3(toks, pos, a, t, b);
  }

  /** PrintedAt for a binary node printed without parentheses, from its
      operands and its operator at `mid`. */
  lemma PrintedBinary(toks: seq<Token>, pos: nat, e: Expr, k: int, mid: nat)
    requires 0 <= k <= 5 && e.Binary? && k <= Prec(e)
    requires mid == pos + Width(e.left, LeftSide(e)) && mid < |toks|
    requires PrintedAt(toks, pos, e.left, LeftSide(e))
    requires toks[mid] == e.op && PrintedAt(toks, mid + 1, e.right, RightSide(e))
    ensures PrintedAt(toks, pos, e, k)
  {
  }

  /** The converse of PrintedBinary: the operands and the operator of a
      binary node printed without parentheses. */
  lemma BinaryParts(toks: seq<Token>, pos: nat, e: Expr, k: int, mid: nat, end: nat)
    requires 0 <= k <= 5 && e.Binary? && k <= Prec(e)
    requires mid == pos + Width(e.left, LeftSide(e)) && end == pos + Width(e, k)
    requires PrintedAt(toks, pos, e, k)
    ensures end == mid + 1 + Width(e.right, RightSide(e)) && end <= |toks|
    ensures PrintedAt(toks, pos, e.left, LeftSide(e))
    ensures toks[mid] == e.op && PrintedAt(toks, mid + 1, e.right, RightSide(e))
  {
  }

  /** Anything but an operator of level k is printed the same for level k
      and for level k + 1. */
  lemma PrintedNext(toks: seq<Token>, pos: int, e: Expr, k: int)
    requires 0 <= k <= 4 && Prec(e) != k
    ensures Width(e, k) == Width(e, k + 1)
    ensures PrintedAt(toks, pos, e, k) == PrintedAt(toks, pos, e, k + 1)
  {
  }

  // ---------------------------------------------------------------------
  // Single steps of the parser
  // ---------------------------------------------------------------------

  lemma ExpressionAssignStep(toks: seq<Token>, pos: nat, target: Expr, mid: nat, value: Expr, end: nat)
    requires Cursor(toks, pos) && Level(toks, 1, pos) == Ok(Parsed(target, mid))
    requires Check(toks, mid, Assign) && target.Variable?
    requires Expression(toks, mid + 1) == Ok(Parsed(value, end))
    ensures Expression(toks, pos) == Ok(Parsed(Binary(target, toks[mid], value), end))
  {
  }

  lemma ExpressionPlainStep(toks: seq<Token>, pos: nat, e: Expr, end: nat)
    requires Cursor(toks, pos) && Level(toks, 1, pos) == Ok(Parsed(e, end))
    requires !Check(toks, end, Assign)
    ensures Expression(toks, pos) == Ok(Parsed(e, end))
  {
  }

  lemma LevelStep(toks: seq<Token>, k: int, pos: nat, e: Expr, end: nat)
    requires IsLevel(k) && Cursor(toks, pos) && Operand(toks, k, pos) == Ok(Parsed(e, end))
    ensures Level(toks, k, pos) == Tail(toks, k, e, end)
  {
  }

  lemma TailStep(toks: seq<Token>, k: int, left: Expr, pos: nat, right: Expr, end: nat)
    requires IsLevel(k) && Cursor(toks, pos)
    requires toks[pos].kind in LevelOperators(k)
    requires pos + 1 < |toks| && Operand(toks, k, pos + 1) == Ok(Parsed(right, end))
    ensures Tail(toks, k, left, pos) == Tail(toks, k, Binary(left, toks[pos], right), end)
  {
    assert toks[pos].kind != Eof;
  }

  lemma TailStop(toks: seq<Token>, k: int, left: Expr, pos: nat)
    requires IsLevel(k) && Cursor(toks, pos)
    requires Binding(toks[pos].kind) < k
    ensures Tail(toks, k, left, pos) == Ok(Parsed(left, pos))
  {
  }

  lemma PrimaryParenStep(toks: seq<Token>, pos: nat, e: Expr, mid: nat)
    requires Cursor(toks, pos) && toks[pos].kind == LParen
    requires pos + 1 < |toks| && Expression(toks, pos + 1) == Ok(Parsed(e, mid))
    requires toks[mid].kind == RParen
    ensures Primary(toks, pos) == Ok(Parsed(e, mid + 1))
  {
  }

  // ---------------------------------------------------------------------
  // Expressions read back
  //
  // One lemma per parsing function; together they walk down the levels
  // for the same expression until it is split into its operands or, for
  // a parenthesised one, re-entered from the top one level looser. Each
  // takes the position just after the expression as `end`.
  // ---------------------------------------------------------------------

  /** A whole expression printed at level 0 parses back to itself when the
      token after it is neither `=` nor a binary operator. */
  lemma {:induction false} ExpressionPrinted(e: Expr, toks: seq<Token>, pos: nat, end: nat)
    requires WellFormed(e) && Valid(toks)
    requires PrintedAt(toks, pos, e, 0) && end == pos + Width(e, 0) && end < |toks|
    requires Binding(toks[end].kind) < 0
    ensures Expression(toks, pos) == Ok(Parsed(e, end))
    decreases e, 0, 101
  {
    if e.Binary? && e.op.kind == Assign {
      AssignmentPrinted(e, toks, pos, end);
    } else {
      PrintedNext(toks, pos, e, 0);
      LevelParsed(e, 1, toks, pos, end);
      ExpressionPlainStep(toks, pos, e, end);
    }
  }

  /** The case of ExpressionPrinted where e is an assignment: its target
      is read as an equality, and the value as a whole expression. */
  lemma {:induction false} AssignmentPrinted(e: Expr, toks: seq<Token>, pos: nat, end: nat)
    requires WellFormed(e) && Valid(toks) && e.Binary? && e.op.kind == Assign
    requires PrintedAt(toks, pos, e, 0) && end == pos + Width(e, 0) && end < |toks|
    requires Binding(toks[end].kind) < 0
    ensures Expression(toks, pos) == Ok(Parsed(e, end))
    decreases e, 0, 100
  {
    var mid := pos + Width(e.left, 1);
    BinaryParts(toks, pos, e, 0, mid, end);
    LevelParsed(e.left, 1, toks, pos, mid);
    ExpressionPrinted(e.right, toks, mid + 1, end);
    ExpressionAssignStep(toks, pos, e.left, mid, e.right, end);
  }

  /** Level k reads back e printed for level k when the token after it is
      not an operator of level k or tighter. */
  lemma {:induction false} LevelParsed(e: Expr, k: int, toks: seq<Token>, pos: nat, end: nat)
    requires WellFormed(e) && IsLevel(k) && Valid(toks)
    requires PrintedAt(toks, pos, e, k) && end == pos + Width(e, k) && end < |toks|
    requires Binding(toks[end].kind) < k
    ensures Level(toks, k, pos) == Ok(Parsed(e, end))
    decreases e, if Prec(e) < k then 1 else 0, 20 * (5 - k) + 4
  {
    LevelPrinted(e, k, toks, pos, end);
    TailStop(toks, k, e, end);
  }

  /** Level k over e printed for level k parses e as its first operand
      and continues with e as the left operand, provided the token after
      it is not an operator of a tighter level. */
  lemma {:induction false} LevelPrinted(e: Expr, k: int, toks: seq<Token>, pos: nat, end: nat)
    requires WellFormed(e) && IsLevel(k) && Valid(toks)
    requires PrintedAt(toks, pos, e, k) && end == pos + Width(e, k) && end < |toks|
    requires Binding(toks[end].kind) <= k
    ensures Level(toks, k, pos) == Tail(toks, k, e, end)
    decreases e, if Prec(e) < k then 1 else 0, 20 * (5 - k) + 3
  {
    if Prec(e) == k {
      LevelChain(e, k, toks, pos, end);
    } else {
      PrintedNext(toks, pos, e, k);
      OperandPrinted(e, k, toks, pos, end);
      LevelStep(toks, k, pos, e, end);
    }
  }

  /** The case of LevelPrinted where e is itself an operator of level k:
      its left operand is read first, and the tail then takes the
      operator and the right operand. */
  lemma {:induction false} LevelChain(e: Expr, k: int, toks: seq<Token>, pos: nat, end: nat)
    requires WellFormed(e) && IsLevel(k) && Valid(toks) && Prec(e) == k
    requires PrintedAt(toks, pos, e, k) && end == pos + Width(e, k) && end < |toks|
    requires Binding(toks[end].kind) <= k
    ensures Level(toks, k, pos) == Tail(toks, k, e, end)
    decreases e, 0, 20 * (5 - k) + 2
  {
    var mid := pos + Width(e.left, k);
    BinaryParts(toks, pos, e, k, mid, end);
    LevelPrinted(e.left, k, toks, pos, mid);
    OperandPrinted(e.right, k, toks, mid + 1, end);
    TailStep(toks, k, e.left, mid, e.right, end);
  }

  /** The operand of level k reads back e printed for level k + 1. */
  lemma {:induction false} OperandPrinted(e: Expr, k: int, toks: seq<Token>, pos: nat, end: nat)
    requires WellFormed(e) && IsLevel(k) && Valid(toks)
    requires PrintedAt(toks, pos, e, k + 1) && end == pos + Width(e, k + 1) && end < |toks|
    requires Binding(toks[end].kind) <= k
    ensures Operand(toks, k, pos) == Ok(Parsed(e, end))
    decreases e, if Prec(e) < k + 1 then 1 else 0, 20 * (5 - k) + 1
  {
    if k == 4 {
      PrimaryPrinted(e, toks, pos, end);
    } else {
      LevelParsed(e, k + 1, toks, pos, end);
    }
  }

  /** A primary reads back e printed for level 5: the token itself, or
      the expression inside the parentheses. */
  lemma {:induction false} PrimaryPrinted(e: Expr, toks: seq<Token>, pos: nat, end: nat)
    requires WellFormed(e) && Valid(toks)
    requires PrintedAt(toks, pos, e, 5) && end == pos + Width(e, 5) && end < |toks|
    ensures Primary(toks, pos) == Ok(Parsed(e, end))
    decreases e, if Prec(e) < 5 then 1 else 0, 0
  {
    if e.Binary? {
      var mid := pos + 1 + Width(e, 0);
      ExpressionPrinted(e, toks, pos + 1, mid);
      PrimaryParenStep(toks, pos, e, mid);
    }
  }
}
