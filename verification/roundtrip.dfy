/** Statements and programs read back: printing a well-formed statement
    list and parsing the tokens gives the list back. Together with the
    expression lemmas of `Unparse` this shows that the parser's grammar,
    its dispatch on the first token, its block and program loops and its
    dangling-else rule agree with the printer. */
module RoundTrip {
  import opened Results
  import opened Lexer
  import opened Ast
  import opened Parser
  import opened Unparse

  // ---------------------------------------------------------------------
  // Printed statements, token by token
  // ---------------------------------------------------------------------

  /** The number of tokens PrintStmt(s) has. */
  function StmtWidth(s: Stmt): (n: nat)
    ensures n > 0
  {
    match s
    case ExprStmt(e) => Width(e, 0) + 1
    case LetStmt(_, init) => Width(init, 0) + 4
    case YapStmt(e) => Width(e, 0) + 4
    case IfStmt(c, t, f) => Width(c, 0) + 3 + StmtWidth(t) + ElseWidth(f)
    case WhileStmt(c, body) => Width(c, 0) + 3 + StmtWidth(body)
    case BlockStmt(ss) => BlockWidth(ss) + 2
  }

  /** The number of tokens PrintElse(f) has. */
  function ElseWidth(f: Option<Stmt>): nat
  {
    if f.Some? then 1 + StmtWidth(f.value) else 0
  }

  /** The number of tokens PrintBlock(ss) has. */
  function BlockWidth(ss: seq<Stmt>): nat
  {
    if |ss| == 0 then 0 else StmtWidth(ss[0]) + BlockWidth(ss[1..])
  }

  /** Guard(keyword, c) occurs in toks from index pos on. */
  predicate GuardAt(toks: seq<Token>, pos: int, keyword: TokenType, c: Expr)
  {
    && 0 <= pos && pos + Width(c, 0) + 3 <= |toks|
    && toks[pos].kind == keyword && toks[pos + 1].kind == LParen
    && PrintedAt(toks, pos + 2, c, 0)
    && toks[pos + 2 + Width(c, 0)].kind == RParen
  }

  /** PrintStmt(s) occurs in toks from index pos on. */
  predicate StmtAt(toks: seq<Token>, pos: int, s: Stmt)
    decreases s
  {
    && 0 <= pos && pos + StmtWidth(s) <= |toks|
    && match s
       case ExprStmt(e) =>
         PrintedAt(toks, pos, e, 0) && toks[pos + Width(e, 0)].kind == Semicolon
       case LetStmt(name, init) =>
         && toks[pos].kind == Let && toks[pos + 1] == name && toks[pos + 2].kind == Assign
         && PrintedAt(toks, pos + 3, init, 0)
         && toks[pos + 3 + Width(init, 0)].kind == Semicolon
       case YapStmt(e) =>
         && toks[pos].kind == Yap && toks[pos + 1].kind == LParen
         && PrintedAt(toks, pos + 2, e, 0)
         && toks[pos + 2 + Width(e, 0)].kind == RParen
         && toks[pos + 3 + Width(e, 0)].kind == Semicolon
       case IfStmt(c, t, f) =>
         && GuardAt(toks, pos, If, c)
         && StmtAt(toks, pos + 3 + Width(c, 0), t)
         && ElseAt(toks, pos + 3 + Width(c, 0) + StmtWidth(t), f)
       case WhileStmt(c, body) =>
         GuardAt(toks, pos, While, c) && StmtAt(toks, pos + 3 + Width(c, 0), body)
       case BlockStmt(ss) =>
         && toks[pos].kind == LBrace
         && BlockAt(toks, pos + 1, ss)
         && toks[pos + 1 + BlockWidth(ss)].kind == RBrace
  }

  /** PrintElse(f) occurs in toks from index pos on. */
  predicate ElseAt(toks: seq<Token>, pos: int, f: Option<Stmt>)
    decreases f
  {
    && 0 <= pos && pos + ElseWidth(f) <= |toks|
    && (f.Some? ==> toks[pos].kind == Else && StmtAt(toks, pos + 1, f.value))
  }

  /** PrintBlock(ss) occurs in toks from index pos on. */
  predicate BlockAt(toks: seq<Token>, pos: int, ss: seq<Stmt>)
    decreases ss
  {
    && 0 <= pos && pos + BlockWidth(ss) <= |toks|
    && (|ss| > 0 ==> StmtAt(toks, pos, ss[0]) && BlockAt(toks, pos + StmtWidth(ss[0]), ss[1..]))
  }

  // ---------------------------------------------------------------------
  // From printed sequences to tokens
  // ---------------------------------------------------------------------

  lemma {:induction false} PrintStmtWidth(s: Stmt)
    requires WellFormedStmt(s)
    ensures |PrintStmt(s)| == StmtWidth(s)
    decreases s
  {
    match s
    case ExprStmt(e) => PrintWidth(e, 0);
    case LetStmt(_, init) => PrintWidth(init, 0);
    case YapStmt(e) => PrintWidth(e, 0);
    case IfStmt(c, t, f) =>
      PrintWidth(c, 0);
      PrintStmtWidth(t);
      if f.Some? {
        PrintStmtWidth(f.value);
      }
    case WhileStmt(c, body) =>
      PrintWidth(c, 0);
      PrintStmtWidth(body);
    case BlockStmt(ss) => PrintBlockWidth(ss);
  }

  lemma {:induction false} PrintBlockWidth(ss: seq<Stmt>)
    requires WellFormedBlock(ss)
    ensures |PrintBlock(ss)| == BlockWidth(ss)
    decreases ss
  {
    if |ss| > 0 {
      PrintStmtWidth(ss[0]);
      PrintBlockWidth(ss[1..]);
    }
  }

  lemma GuardWidth(keyword: Token, c: Expr)
    requires WellFormed(c)
    ensures |Guard(keyword, c)| == Width(c, 0) + 3
  {
    PrintWidth(c, 0);
  }

  lemma PlacedGuard(toks: seq<Token>, pos: nat, keyword: Token, c: Expr)
    requires WellFormed(c) && Placed(toks, pos, Guard(keyword, c))
    ensures GuardAt(toks, pos, keyword.kind, c)
  {
    var pc := Print(c, 0);
    Framed(toks, pos, [keyword, LParenTok], pc, [RParenTok]);
    Two(toks, pos, keyword, LParenTok);
    One(toks, pos + 2 + |pc|, RParenTok);
    PrintWidth(c, 0);
    PlacedPrinted(toks, pos + 2, c, 0);
  }

  /** Placing a printed statement places every token of it. */
  lemma {:induction false} PlacedStmt(toks: seq<Token>, pos: nat, s: Stmt)
    requires WellFormedStmt(s) && Placed(toks, pos, PrintStmt(s))
    ensures StmtAt(toks, pos, s)
    decreases s, 2
  {
    match s
    case ExprStmt(e) =>
      PlacedExprStmt(toks, pos, s, Print(e, 0));
    case LetStmt(_, init) =>
      PlacedLet(toks, pos, s, Print(init, 0));
    case YapStmt(e) =>
      PlacedYap(toks, pos, s, Print(e, 0));
    case IfStmt(c, t, f) =>
      PlacedIf(toks, pos, s, Guard(IfTok, c), PrintStmt(t), PrintElse(f));
    case WhileStmt(c, body) =>
      PlacedWhile(toks, pos, s, Guard(WhileTok, c), PrintStmt(body));
    case BlockStmt(ss) =>
      PlacedBraces(toks, pos, s, PrintBlock(ss));
  }

  /** The case of PlacedStmt for an expression statement. */
  lemma PlacedExprStmt(toks: seq<Token>, pos: nat, s: Stmt, pe: seq<Token>)
    requires WellFormedStmt(s) && s.ExprStmt? && pe == Print(s.expr, 0)
    requires Placed(toks, pos, pe + [SemicolonTok])
    ensures StmtAt(toks, pos, s)
  {
    PrintWidth(s.expr, 0);
    Split(toks, pos, pe, [SemicolonTok]);
    One(toks, pos + |pe|, SemicolonTok);
    PlacedPrinted(toks, pos, s.expr, 0);
  }

  /** The case of PlacedStmt for `let`. */
  lemma PlacedLet(toks: seq<Token>, pos: nat, s: Stmt, pe: seq<Token>)
    requires WellFormedStmt(s) && s.LetStmt? && pe == Print(s.init, 0)
    requires Placed(toks, pos, [LetTok, s.name, AssignTok] + pe + [SemicolonTok])
    ensures StmtAt(toks, pos, s)
  {
    PrintWidth(s.init, 0);
    Framed(toks, pos, [LetTok, s.name, AssignTok], pe, [SemicolonTok]);
    Three(toks, pos, LetTok, s.name, AssignTok);
    One(toks, pos + 3 + |pe|, SemicolonTok);
    PlacedPrinted(toks, pos + 3, s.init, 0);
  }

  /** The case of PlacedStmt for `yap`. */
  lemma PlacedYap(toks: seq<Token>, pos: nat, s: Stmt, pe: seq<Token>)
    requires WellFormedStmt(s) && s.YapStmt? && pe == Print(s.expr, 0)
    requires Placed(toks, pos, [YapTok, LParenTok] + pe + [RParenTok, SemicolonTok])
    ensures StmtAt(toks, pos, s)
  {
    var mid := pos + 2 + |pe|;
    PrintWidth(s.expr, 0);
    FramedAt(toks, pos, [YapTok, LParenTok], pe, [RParenTok, SemicolonTok], pos + 2, mid);
    Two(toks, pos, YapTok, LParenTok);
    Two(toks, mid, RParenTok, SemicolonTok);
    PlacedPrinted(toks, pos + 2, s.expr, 0);
    YapAt(toks, pos, s, mid);
  }

  /** A `yap` statement is placed once its tokens around the argument
      and the argument are. */
  lemma YapAt(toks: seq<Token>, pos: nat, s: Stmt, mid: nat)
    requires s.YapStmt? && mid == pos + 2 + Width(s.expr, 0) && mid + 1 < |toks|
    requires toks[pos].kind == Yap && toks[pos + 1].kind == LParen
    requires PrintedAt(toks, pos + 2, s.expr, 0)
    requires toks[mid].kind == RParen && toks[mid + 1].kind == Semicolon
    ensures StmtAt(toks, pos, s)
  {
  }

  /** Framed with the positions of the second and third parts named. */
  lemma FramedAt(toks: seq<Token>, pos: nat, a: seq<Token>, m: seq<Token>, b: seq<Token>, p1: nat, p2: nat)
    requires Placed(toks, pos, a + m + b) && p1 == pos + |a| && p2 == p1 + |m|
    ensures Placed(toks, pos, a) && Placed(toks, p1, m) && Placed(toks, p2, b)
  {
    Framed(toks, pos, a, m, b);
  }

  /** Split with the position of the second part named. */
  lemma SplitAt(toks: seq<Token>, pos: nat, a: seq<Token>, b: seq<Token>, mid: nat)
    requires Placed(toks, pos, a + b) && mid == pos + |a|
    ensures Placed(toks, pos, a) && Placed(toks, mid, b)
  {
    Split(toks, pos, a, b);
  }

  /** The case of PlacedStmt for `if`: the guard, the then-branch and the
      else part are placed one after the other. */
  lemma {:induction false} PlacedIf(toks: seq<Token>, pos: nat, s: Stmt,
                                     g: seq<Token>, pt: seq<Token>, pe: seq<Token>)
    requires WellFormedStmt(s) && s.IfStmt?
    requires g == Guard(IfTok, s.cond) && pt == PrintStmt(s.thenBranch)
    requires pe == PrintElse(s.elseBranch)
    requires Placed(toks, pos, g + pt + pe)
    ensures StmtAt(toks, pos, s)
    decreases s, 1
  {
    var mid := pos + |g|;
    var tend := mid + |pt|;
    FramedAt(toks, pos, g, pt, pe, mid, tend);
    GuardWidth(IfTok, s.cond);
    PrintStmtWidth(s.thenBranch);
    PlacedIfParts(toks, pos, s, mid, tend);
  }

  lemma {:induction false} PlacedIfParts(toks: seq<Token>, pos: nat, s: Stmt, mid: nat, tend: nat)
    requires WellFormedStmt(s) && s.IfStmt?
    requires mid == pos + 3 + Width(s.cond, 0) && tend == mid + StmtWidth(s.thenBranch)
    requires Placed(toks, pos, Guard(IfTok, s.cond))
    requires Placed(toks, mid, PrintStmt(s.thenBranch))
    requires Placed(toks, tend, PrintElse(s.elseBranch))
    ensures StmtAt(toks, pos, s)
    decreases s, 0
  {
    PlacedGuard(toks, pos, IfTok, s.cond);
    PlacedStmt(toks, mid, s.thenBranch);
    PlacedElse(toks, tend, s.elseBranch);
    IfAt(toks, pos, s, mid, tend);
  }

  /** An `if` is placed once its guard, then-branch and else part are. */
  lemma IfAt(toks: seq<Token>, pos: nat, s: Stmt, mid: nat, tend: nat)
    requires s.IfStmt?
    requires mid == pos + 3 + Width(s.cond, 0) && tend == mid + StmtWidth(s.thenBranch)
    requires GuardAt(toks, pos, If, s.cond)
    requires StmtAt(toks, mid, s.thenBranch)
    requires ElseAt(toks, tend, s.elseBranch)
    ensures StmtAt(toks, pos, s)
  {
  }

  /** Placing a printed else part places every token of it. */
  lemma {:induction false} PlacedElse(toks: seq<Token>, pos: nat, f: Option<Stmt>)
    requires (f.Some? ==> WellFormedStmt(f.value)) && Placed(toks, pos, PrintElse(f))
    ensures ElseAt(toks, pos, f)
    decreases f
  {
    if f.Some? {
      SplitAt(toks, pos, [ElseTok], PrintStmt(f.value), pos + 1);
      One(toks, pos, ElseTok);
      PrintStmtWidth(f.value);
      PlacedStmt(toks, pos + 1, f.value);
    }
  }

  /** The case of PlacedStmt for `while`. */
  lemma {:induction false} PlacedWhile(toks: seq<Token>, pos: nat, s: Stmt, g: seq<Token>, pb: seq<Token>)
    requires WellFormedStmt(s) && s.WhileStmt?
    requires g == Guard(WhileTok, s.cond) && pb == PrintStmt(s.body)
    requires Placed(toks, pos, g + pb)
    ensures StmtAt(toks, pos, s)
    decreases s, 0
  {
    var mid := pos + |g|;
    SplitAt(toks, pos, g, pb, mid);
    GuardWidth(WhileTok, s.cond);
    PrintStmtWidth(s.body);
    PlacedGuard(toks, pos, WhileTok, s.cond);
    PlacedStmt(toks, mid, s.body);
    WhileAt(toks, pos, s, mid);
  }

  /** A `while` is placed once its guard and body are. */
  lemma WhileAt(toks: seq<Token>, pos: nat, s: Stmt, mid: nat)
    requires s.WhileStmt? && mid == pos + 3 + Width(s.cond, 0)
    requires GuardAt(toks, pos, While, s.cond)
    requires StmtAt(toks, mid, s.body)
    ensures StmtAt(toks, pos, s)
  {
  }

  /** The case of PlacedStmt for a block. */
  lemma {:induction false} PlacedBraces(toks: seq<Token>, pos: nat, s: Stmt, pb: seq<Token>)
    requires WellFormedStmt(s) && s.BlockStmt? && pb == PrintBlock(s.stmts)
    requires Placed(toks, pos, [LBraceTok] + pb + [RBraceTok])
    ensures StmtAt(toks, pos, s)
    decreases s, 0
  {
    Framed(toks, pos, [LBraceTok], pb, [RBraceTok]);
    One(toks, pos, LBraceTok);
    One(toks, pos + 1 + |pb|, RBraceTok);
    PrintBlockWidth(s.stmts);
    PlacedBlock(toks, pos + 1, s.stmts);
  }

  /** Placing a printed statement list places every token of it. */
  lemma {:induction false} PlacedBlock(toks: seq<Token>, pos: nat, ss: seq<Stmt>)
    requires WellFormedBlock(ss) && Placed(toks, pos, PrintBlock(ss))
    ensures BlockAt(toks, pos, ss)
    decreases ss
  {
    PrintBlockWidth(ss);
    if |ss| > 0 {
      Split(toks, pos, PrintStmt(ss[0]), PrintBlock(ss[1..]));
      PrintStmtWidth(ss[0]);
      PlacedStmt(toks, pos, ss[0]);
      PlacedBlock(toks, pos + StmtWidth(ss[0]), ss[1..]);
    }
  }

  // ---------------------------------------------------------------------
  // What a printed statement starts with
  // ---------------------------------------------------------------------

  /** A printed expression starts with an integer, a name or `(`. */
  lemma {:induction false} PrintedFirst(toks: seq<Token>, pos: int, e: Expr, k: int)
    requires WellFormed(e) && 0 <= k <= 5 && PrintedAt(toks, pos, e, k)
    ensures toks[pos].kind == Int || toks[pos].kind == Identifier || toks[pos].kind == LParen
    decreases e, if Prec(e) < k then 1 else 0
  {
    if Prec(e) >= k && e.Binary? {
      PrintedFirst(toks, pos, e.left, LeftSide(e));
    }
  }

  /** A printed statement starts with a token the parser dispatches on;
      an expression statement with one that no keyword check takes. */
  lemma StmtFirst(toks: seq<Token>, pos: int, s: Stmt)
    requires WellFormedStmt(s) && StmtAt(toks, pos, s)
    ensures StartsStatement(toks[pos].kind)
    ensures s.ExprStmt? ==> toks[pos].kind == Int || toks[pos].kind == Identifier || toks[pos].kind == LParen
  {
    if s.ExprStmt? {
      PrintedFirst(toks, pos, s.expr, 0);
    }
  }

  // ---------------------------------------------------------------------
  // One step of each statement parsing function
  // ---------------------------------------------------------------------

  lemma ExprStatementStep(toks: seq<Token>, pos: nat, e: Expr, end: nat)
    requires Cursor(toks, pos)
    requires toks[pos].kind == Int || toks[pos].kind == Identifier || toks[pos].kind == LParen
    requires Expression(toks, pos) == Ok(Parsed(e, end)) && toks[end].kind == Semicolon
    ensures Statement(toks, pos) == Ok(Parsed(ExprStmt(e), end + 1))
  {
  }

  lemma LetStep(toks: seq<Token>, pos: nat, init: Expr, end: nat)
    requires Cursor(toks, pos) && pos + 3 < |toks| && toks[pos].kind == Let
    requires toks[pos + 1].kind == Identifier && toks[pos + 2].kind == Assign
    requires Expression(toks, pos + 3) == Ok(Parsed(init, end)) && toks[end].kind == Semicolon
    ensures Statement(toks, pos) == Ok(Parsed(LetStmt(toks[pos + 1], init), end + 1))
  {
  }

  lemma YapStep(toks: seq<Token>, pos: nat, e: Expr, end: nat)
    requires Cursor(toks, pos) && pos + 2 < |toks| && toks[pos].kind == Yap
    requires toks[pos + 1].kind == LParen
    requires Expression(toks, pos + 2) == Ok(Parsed(e, end))
    requires toks[end].kind == RParen && end + 1 < |toks| && toks[end + 1].kind == Semicolon
    ensures Statement(toks, pos) == Ok(Parsed(YapStmt(e), end + 2))
  {
  }

  lemma IfStep(toks: seq<Token>, pos: nat, c: Expr, mid: nat, t: Stmt, end: nat)
    requires Cursor(toks, pos) && pos + 2 < |toks| && toks[pos].kind == If
    requires toks[pos + 1].kind == LParen
    requires Expression(toks, pos + 2) == Ok(Parsed(c, mid))
    requires toks[mid].kind == RParen && mid + 1 < |toks|
    requires Statement(toks, mid + 1) == Ok(Parsed(t, end))
    ensures Statement(toks, pos) == ElseTail(toks, c, t, end)
  {
  }

  lemma ElseStep(toks: seq<Token>, c: Expr, t: Stmt, pos: nat, f: Stmt, end: nat)
    requires Cursor(toks, pos) && pos + 1 < |toks| && WellFormed(c) && WellFormedStmt(t) && !OpenIf(t)
    requires toks[pos].kind == Else
    requires Statement(toks, pos + 1) == Ok(Parsed(f, end))
    ensures ElseTail(toks, c, t, pos) == Ok(Parsed(IfStmt(c, t, Some(f)), end))
  {
  }

  lemma NoElseStep(toks: seq<Token>, c: Expr, t: Stmt, pos: nat)
    requires Cursor(toks, pos) && WellFormed(c) && WellFormedStmt(t)
    requires toks[pos].kind != Else
    ensures ElseTail(toks, c, t, pos) == Ok(Parsed(IfStmt(c, t, None), pos))
  {
  }

  lemma WhileStep(toks: seq<Token>, pos: nat, s: Stmt, mid: nat, end: nat)
    requires Cursor(toks, pos) && pos + 2 < |toks| && toks[pos].kind == While
    requires toks[pos + 1].kind == LParen && s.WhileStmt?
    requires Expression(toks, pos + 2) == Ok(Parsed(s.cond, mid))
    requires toks[mid].kind == RParen && mid + 1 < |toks|
    requires Statement(toks, mid + 1) == Ok(Parsed(s.body, end))
    ensures Statement(toks, pos) == Ok(Parsed(s, end))
  {
  }

  lemma BracesStep(toks: seq<Token>, pos: nat, ss: seq<Stmt>, end: nat)
    requires Cursor(toks, pos) && pos + 1 < |toks| && toks[pos].kind == LBrace
    requires BlockBody(toks, pos + 1) == Ok(Parsed(ss, end)) && toks[end].kind == RBrace
    ensures Statement(toks, pos) == Ok(Parsed(BlockStmt(ss), end + 1))
  {
  }

  lemma BodyStep(toks: seq<Token>, pos: nat, s: Stmt, mid: nat, ss: seq<Stmt>, end: nat)
    requires Cursor(toks, pos) && toks[pos].kind != RBrace && toks[pos].kind != Eof
    requires Statement(toks, pos) == Ok(Parsed(s, mid))
    requires BlockBody(toks, mid) == Ok(Parsed(ss, end))
    ensures BlockBody(toks, pos) == Ok(Parsed([s] + ss, end))
  {
  }

  lemma ProgramStep(toks: seq<Token>, pos: nat, s: Stmt, mid: nat, ss: seq<Stmt>)
    requires Cursor(toks, pos) && toks[pos].kind != Eof
    requires Statement(toks, pos) == Ok(Parsed(s, mid))
    requires Statements(toks, mid) == Ok(ss)
    ensures Statements(toks, pos) == Ok([s] + ss)
  {
  }

  // ---------------------------------------------------------------------
  // Printed statements parse back
  // ---------------------------------------------------------------------

  // The lemmas below name the positions a parse reaches (`end`, `mid`)
  // as variables equal to the printed widths, so that the verifier does
  // not have to relate parser calls at positions written as width sums.

  /** A printed statement parses back to itself, provided the token after
      it does not hand an `else` to an `if` that has none. */
  lemma {:induction false} StatementPrinted(s: Stmt, toks: seq<Token>, pos: nat, end: nat)
    requires WellFormedStmt(s) && Valid(toks)
    requires StmtAt(toks, pos, s) && end == pos + StmtWidth(s) && end < |toks|
    requires OpenIf(s) ==> toks[end].kind != Else
    ensures Statement(toks, pos) == Ok(Parsed(s, end))
    decreases s, 3
  {
    match s
    case ExprStmt(_) => ExprStmtPrinted(s, toks, pos, end);
    case LetStmt(_, _) => LetPrinted(s, toks, pos, end);
    case YapStmt(_) => YapPrinted(s, toks, pos, end);
    case IfStmt(_, _, _) => IfPrinted(s, toks, pos, end);
    case WhileStmt(_, _) => WhilePrinted(s, toks, pos, end);
    case BlockStmt(_) => BracesPrinted(s, toks, pos, end);
  }

  /** ExpressionPrinted with the end position named. */
  lemma ExpressionPrintedTo(e: Expr, toks: seq<Token>, pos: nat, end: nat)
    requires WellFormed(e) && Valid(toks)
    requires PrintedAt(toks, pos, e, 0) && end == pos + Width(e, 0) && end < |toks|
    requires Binding(toks[end].kind) < 0
    ensures Expression(toks, pos) == Ok(Parsed(e, end))
  {
    ExpressionPrinted(e, toks, pos, end);
  }

  lemma ExprStmtPrinted(s: Stmt, toks: seq<Token>, pos: nat, end: nat)
    requires WellFormedStmt(s) && s.ExprStmt? && Valid(toks)
    requires StmtAt(toks, pos, s) && end == pos + StmtWidth(s) && end < |toks|
    ensures Statement(toks, pos) == Ok(Parsed(s, end))
  {
    var mid := pos + Width(s.expr, 0);
    ExprStmtParts(toks, pos, s, mid, end);
    PrintedFirst(toks, pos, s.expr, 0);
    ExpressionPrintedTo(s.expr, toks, pos, mid);
    ExprStatementStep(toks, pos, s.expr, mid);
  }

  lemma ExprStmtParts(toks: seq<Token>, pos: nat, s: Stmt, mid: nat, end: nat)
    requires WellFormedStmt(s) && s.ExprStmt? && StmtAt(toks, pos, s)
    requires mid == pos + Width(s.expr, 0) && end == pos + StmtWidth(s)
    ensures end == mid + 1 && end <= |toks|
    ensures PrintedAt(toks, pos, s.expr, 0) && toks[mid].kind == Semicolon
  {
  }

  lemma LetPrinted(s: Stmt, toks: seq<Token>, pos: nat, end: nat)
    requires WellFormedStmt(s) && s.LetStmt? && Valid(toks)
    requires StmtAt(toks, pos, s) && end == pos + StmtWidth(s) && end < |toks|
    ensures Statement(toks, pos) == Ok(Parsed(s, end))
  {
    var mid := pos + 3 + Width(s.init, 0);
    LetParts(toks, pos, s, mid, end);
    ExpressionPrintedTo(s.init, toks, pos + 3, mid);
    LetStep(toks, pos, s.init, mid);
  }

  lemma LetParts(toks: seq<Token>, pos: nat, s: Stmt, mid: nat, end: nat)
    requires WellFormedStmt(s) && s.LetStmt? && StmtAt(toks, pos, s)
    requires mid == pos + 3 + Width(s.init, 0) && end == pos + StmtWidth(s)
    ensures end == mid + 1 && end <= |toks|
    ensures toks[pos].kind == Let && toks[pos + 1] == s.name && toks[pos + 2].kind == Assign
    ensures s.name.kind == Identifier
    ensures PrintedAt(toks, pos + 3, s.init, 0) && toks[mid].kind == Semicolon
  {
  }

  lemma YapPrinted(s: Stmt, toks: seq<Token>, pos: nat, end: nat)
    requires WellFormedStmt(s) && s.YapStmt? && Valid(toks)
    requires StmtAt(toks, pos, s) && end == pos + StmtWidth(s) && end < |toks|
    ensures Statement(toks, pos) == Ok(Parsed(s, end))
  {
    var mid := pos + 2 + Width(s.expr, 0);
    YapParts(toks, pos, s, mid, end);
    ExpressionPrintedTo(s.expr, toks, pos + 2, mid);
    YapStep(toks, pos, s.expr, mid);
  }

  lemma YapParts(toks: seq<Token>, pos: nat, s: Stmt, mid: nat, end: nat)
    requires WellFormedStmt(s) && s.YapStmt? && StmtAt(toks, pos, s)
    requires mid == pos + 2 + Width(s.expr, 0) && end == pos + StmtWidth(s)
    ensures end == mid + 2 && end <= |toks|
    ensures toks[pos].kind == Yap && toks[pos + 1].kind == LParen
    ensures PrintedAt(toks, pos + 2, s.expr, 0)
    ensures toks[mid].kind == RParen && toks[mid + 1].kind == Semicolon
  {
  }

  /** An `if`: the condition, the then-branch and the else part parse
      back one after the other. */
  lemma {:induction false} IfPrinted(s: Stmt, toks: seq<Token>, pos: nat, end: nat)
    requires WellFormedStmt(s) && s.IfStmt? && Valid(toks)
    requires StmtAt(toks, pos, s) && end == pos + StmtWidth(s) && end < |toks|
    requires OpenIf(s) ==> toks[end].kind != Else
    ensures Statement(toks, pos) == Ok(Parsed(s, end))
    decreases s, 2
  {
    var mid := pos + 2 + Width(s.cond, 0);
    var tend := mid + 1 + StmtWidth(s.thenBranch);
    IfParts(toks, pos, s, mid, tend, end);
    IfHead(s, toks, pos, mid, tend);
    ElsePrinted(s, toks, tend, end);
  }

  /** The guard and the then-branch of a printed `if` parse back, leaving
      the else part to ElseTail. */
  lemma {:induction false} IfHead(s: Stmt, toks: seq<Token>, pos: nat, mid: nat, tend: nat)
    requires WellFormedStmt(s) && s.IfStmt? && Valid(toks)
    requires mid == pos + 2 + Width(s.cond, 0) && tend == mid + 1 + StmtWidth(s.thenBranch)
    requires GuardAt(toks, pos, If, s.cond) && StmtAt(toks, mid + 1, s.thenBranch) && tend < |toks|
    requires OpenIf(s.thenBranch) ==> toks[tend].kind != Else
    ensures Statement(toks, pos) == ElseTail(toks, s.cond, s.thenBranch, tend)
    decreases s, 1
  {
    GuardPrinted(s.cond, toks, pos, If, mid);
    StatementPrinted(s.thenBranch, toks, mid + 1, tend);
    IfStep(toks, pos, s.cond, mid, s.thenBranch, tend);
  }

  /** The parts of a placed `if`, and what its shape says about an else
      that could follow its then-branch. */
  lemma IfParts(toks: seq<Token>, pos: nat, s: Stmt, mid: nat, tend: nat, end: nat)
    requires WellFormedStmt(s) && s.IfStmt? && StmtAt(toks, pos, s)
    requires mid == pos + 2 + Width(s.cond, 0) && tend == mid + 1 + StmtWidth(s.thenBranch)
    requires end == pos + StmtWidth(s)
    ensures GuardAt(toks, pos, If, s.cond)
    ensures StmtAt(toks, mid + 1, s.thenBranch)
    ensures ElseAt(toks, tend, s.elseBranch)
    ensures end == tend + ElseWidth(s.elseBranch)
    ensures s.elseBranch.Some? ==> !OpenIf(s.thenBranch) && OpenIf(s) == OpenIf(s.elseBranch.value)
    ensures s.elseBranch.None? ==> OpenIf(s) && end == tend
  {
  }

  /** The condition of a printed guard parses back. */
  lemma GuardPrinted(c: Expr, toks: seq<Token>, pos: nat, keyword: TokenType, mid: nat)
    requires WellFormed(c) && Valid(toks) && mid == pos + 2 + Width(c, 0)
    requires GuardAt(toks, pos, keyword, c) && mid + 1 < |toks|
    ensures toks[pos].kind == keyword && toks[pos + 1].kind == LParen && toks[mid].kind == RParen
    ensures Expression(toks, pos + 2) == Ok(Parsed(c, mid))
  {
    ExpressionPrintedTo(c, toks, pos + 2, mid);
  }

  /** The else part of a printed `if` parses back, completing the `if`. */
  lemma {:induction false} ElsePrinted(s: Stmt, toks: seq<Token>, pos: nat, end: nat)
    requires WellFormedStmt(s) && s.IfStmt? && Valid(toks)
    requires ElseAt(toks, pos, s.elseBranch) && end == pos + ElseWidth(s.elseBranch) && end < |toks|
    requires s.elseBranch.None? ==> toks[pos].kind != Else
    requires s.elseBranch.Some? && OpenIf(s.elseBranch.value) ==> toks[end].kind != Else
    ensures ElseTail(toks, s.cond, s.thenBranch, pos) == Ok(Parsed(s, end))
    decreases s, 1
  {
    if s.elseBranch.Some? {
      StatementPrinted(s.elseBranch.value, toks, pos + 1, end);
      ElseStep(toks, s.cond, s.thenBranch, pos, s.elseBranch.value, end);
    } else {
      NoElseStep(toks, s.cond, s.thenBranch, pos);
    }
  }

  lemma {:induction false} WhilePrinted(s: Stmt, toks: seq<Token>, pos: nat, end: nat)
    requires WellFormedStmt(s) && s.WhileStmt? && Valid(toks)
    requires StmtAt(toks, pos, s) && end == pos + StmtWidth(s) && end < |toks|
    requires OpenIf(s) ==> toks[end].kind != Else
    ensures Statement(toks, pos) == Ok(Parsed(s, end))
    decreases s, 2
  {
    var mid := pos + 2 + Width(s.cond, 0);
    WhileParts(toks, pos, s, mid, end);
    GuardPrinted(s.cond, toks, pos, While, mid);
    StatementPrinted(s.body, toks, mid + 1, end);
    WhileStep(toks, pos, s, mid, end);
  }

  lemma WhileParts(toks: seq<Token>, pos: nat, s: Stmt, mid: nat, end: nat)
    requires WellFormedStmt(s) && s.WhileStmt? && StmtAt(toks, pos, s)
    requires mid == pos + 2 + Width(s.cond, 0) && end == pos + StmtWidth(s)
    ensures GuardAt(toks, pos, While, s.cond)
    ensures StmtAt(toks, mid + 1, s.body) && end == mid + 1 + StmtWidth(s.body)
    ensures OpenIf(s) == OpenIf(s.body)
  {
  }

  lemma {:induction false} BracesPrinted(s: Stmt, toks: seq<Token>, pos: nat, end: nat)
    requires WellFormedStmt(s) && s.BlockStmt? && Valid(toks)
    requires StmtAt(toks, pos, s) && end == pos + StmtWidth(s) && end < |toks|
    ensures Statement(toks, pos) == Ok(Parsed(s, end))
    decreases s, 2
  {
    var close := pos + 1 + BlockWidth(s.stmts);
    BlockPrinted(s.stmts, toks, pos + 1, close);
    BracesStep(toks, pos, s.stmts, close);
  }

  /** A printed statement list followed by `}` or end-of-file is read by
      the block loop up to that token. */
  lemma {:induction false} BlockPrinted(ss: seq<Stmt>, toks: seq<Token>, pos: nat, end: nat)
    requires WellFormedBlock(ss) && Valid(toks)
    requires BlockAt(toks, pos, ss) && end == pos + BlockWidth(ss) && end < |toks|
    requires toks[end].kind == RBrace || toks[end].kind == Eof
    ensures BlockBody(toks, pos) == Ok(Parsed(ss, end))
    decreases ss
  {
    if |ss| > 0 {
      var mid := pos + StmtWidth(ss[0]);
      BlockHead(ss, toks, pos, mid, end);
      BlockPrinted(ss[1..], toks, mid, end);
      BodyStep(toks, pos, ss[0], mid, ss[1..], end);
      assert [ss[0]] + ss[1..] == ss;
    }
  }

  /** The first statement of a printed list, followed by the next
      statement or by `}` or end-of-file, parses back. */
  lemma BlockHead(ss: seq<Stmt>, toks: seq<Token>, pos: nat, mid: nat, end: nat)
    requires WellFormedBlock(ss) && |ss| > 0 && Valid(toks)
    requires BlockAt(toks, pos, ss) && end == pos + BlockWidth(ss) && end < |toks|
    requires toks[end].kind == RBrace || toks[end].kind == Eof
    requires mid == pos + StmtWidth(ss[0])
    ensures toks[pos].kind != RBrace && toks[pos].kind != Eof
    ensures BlockAt(toks, mid, ss[1..]) && end == mid + BlockWidth(ss[1..])
    ensures Statement(toks, pos) == Ok(Parsed(ss[0], mid))
    decreases ss, 0
  {
    StmtFirst(toks, pos, ss[0]);
    if |ss| > 1 {
      StmtFirst(toks, mid, ss[1]);
    }
    StatementPrinted(ss[0], toks, pos, mid);
  }

  /** A printed statement list followed by end-of-file is read by the
      program loop. */
  lemma {:induction false} ProgramPrinted(ss: seq<Stmt>, toks: seq<Token>, pos: nat, end: nat)
    requires WellFormedBlock(ss) && Valid(toks)
    requires BlockAt(toks, pos, ss) && end == pos + BlockWidth(ss) && end < |toks|
    requires toks[end].kind == Eof
    ensures Statements(toks, pos) == Ok(ss)
    decreases ss
  {
    if |ss| > 0 {
      var mid := pos + StmtWidth(ss[0]);
      BlockHead(ss, toks, pos, mid, end);
      ProgramPrinted(ss[1..], toks, mid, end);
      ProgramStep(toks, pos, ss[0], mid, ss[1..]);
      assert [ss[0]] + ss[1..] == ss;
    }
  }

  // ---------------------------------------------------------------------
  // The read-back theorems
  // ---------------------------------------------------------------------

  /** Every well-formed program, printed and ended with end-of-file,
      parses back to itself. */
  lemma ParsePrinted(ss: seq<Stmt>)
    requires WellFormedBlock(ss)
    ensures Parse(PrintBlock(ss) + [EofTok]) == Ok(ss)
  {
    var p := PrintBlock(ss);
    var toks := p + [EofTok];
    assert toks[0..|p|] == p;
    PlacedBlock(toks, 0, ss);
    PrintBlockWidth(ss);
    ProgramPrinted(ss, toks, 0, |p|);
  }

  /** Every well-formed expression, printed with the fewest parentheses
      and ended with end-of-file, parses back to itself. */
  lemma ExpressionReadBack(e: Expr)
    requires WellFormed(e)
    ensures Expression(Print(e, 0) + [EofTok], 0) == Ok(Parsed(e, |Print(e, 0)|))
  {
    var p := Print(e, 0);
    var toks := p + [EofTok];
    assert toks[0..|p|] == p;
    assert toks[|p|] == EofTok;
    ExpressionPlaced(e, toks, |p|);
  }

  lemma ExpressionPlaced(e: Expr, toks: seq<Token>, end: nat)
    requires WellFormed(e) && Placed(toks, 0, Print(e, 0)) && end == |Print(e, 0)|
    requires end < |toks| && toks[end] == EofTok && Valid(toks)
    ensures Expression(toks, 0) == Ok(Parsed(e, end))
  {
    PlacedPrinted(toks, 0, e, 0);
    PrintWidth(e, 0);
    ExpressionPrinted(e, toks, 0, end);
  }
}
