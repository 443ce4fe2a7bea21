/** Worked parses: the two parser tests of the repository, precedence,
    associativity, the dangling else, and three rejected inputs. The token
    sequences are written out as the scanner would deliver them, except
    that punctuation and keywords carry line 0. */
module ParseCases {
  import opened Results
  import opened Lexer
  import opened Ast
  import opened Parser
  import opened Unparse
  import opened RoundTrip
  import opened ParserFacts

  const Four := Token(Int, "4", 1)
  const Five := Token(Int, "5", 1)
  const Six := Token(Int, "6", 1)
  const PlusTok := Token(Plus, "+", 1)
  const MinusTok := Token(Minus, "-", 1)
  const StarTok := Token(Star, "*", 1)
  const A := Token(Identifier, "a", 1)
  const B := Token(Identifier, "b", 1)
  const C := Token(Identifier, "c", 1)

  /** `yap(4+5*6);` is a yap of 4 + (5 * 6). */
  lemma YapPrecedence()
    ensures Parse([YapTok, LParenTok, Four, PlusTok, Five, StarTok, Six, RParenTok, SemicolonTok, EofTok])
         == Ok([YapStmt(Sum456)])
  {
    assert WellFormedBlock([YapStmt(Sum456)]);
    Sum456Printed();
    ParsePrinted([YapStmt(Sum456)]);
  }

  const Sum456 := Binary(Literal(Four), PlusTok, Binary(Literal(Five), StarTok, Literal(Six)))

  lemma Sum456Printed()
    ensures PrintBlock([YapStmt(Sum456)]) + [EofTok]
         == [YapTok, LParenTok, Four, PlusTok, Five, StarTok, Six, RParenTok, SemicolonTok, EofTok]
  {
    var e := Sum456;
    assert Print(e.right.left, 4) == [Five];
    assert Print(e.right, 4) == [Five, StarTok, Six];
    assert Print(e, 0) == [Four, PlusTok, Five, StarTok, Six];
  }

  /** `let foo = 123;` */
  lemma LetFoo()
    ensures var foo, lit := Token(Identifier, "foo", 1), Token(Int, "123", 1);
      Parse([LetTok, foo, AssignTok, lit, SemicolonTok, EofTok]) == Ok([LetStmt(foo, Literal(lit))])
  {
    var foo, lit := Token(Identifier, "foo", 1), Token(Int, "123", 1);
    var ss := [LetStmt(foo, Literal(lit))];
    assert WellFormedBlock(ss);
    assert PrintBlock(ss) + [EofTok] == [LetTok, foo, AssignTok, lit, SemicolonTok, EofTok];
    ParsePrinted(ss);
  }

  /** `a-b-c;` groups to the left. */
  lemma LeftAssociative()
    ensures Parse([A, MinusTok, B, MinusTok, C, SemicolonTok, EofTok])
         == Ok([ExprStmt(Binary(Binary(Variable(A), MinusTok, Variable(B)), MinusTok, Variable(C)))])
  {
    var ss := [ExprStmt(Binary(Binary(Variable(A), MinusTok, Variable(B)), MinusTok, Variable(C)))];
    var e := ss[0].expr;
    assert WellFormedBlock(ss);
    assert Print(e.left, 3) == [A, MinusTok, B];
    assert Print(e, 0) == [A, MinusTok, B, MinusTok, C];
    assert PrintBlock(ss) + [EofTok] == [A, MinusTok, B, MinusTok, C, SemicolonTok, EofTok];
    ParsePrinted(ss);
  }

  /** `a = b = 4;` groups to the right. */
  lemma AssignRight()
    ensures Parse([A, AssignTok, B, AssignTok, Four, SemicolonTok, EofTok])
         == Ok([ExprStmt(Binary(Variable(A), AssignTok, Binary(Variable(B), AssignTok, Literal(Four))))])
  {
    var ss := [ExprStmt(Binary(Variable(A), AssignTok, Binary(Variable(B), AssignTok, Literal(Four))))];
    var e := ss[0].expr;
    assert WellFormedBlock(ss);
    assert Print(e.right, 0) == [B, AssignTok, Four];
    assert Print(e, 0) == [A, AssignTok, B, AssignTok, Four];
    assert PrintBlock(ss) + [EofTok] == [A, AssignTok, B, AssignTok, Four, SemicolonTok, EofTok];
    ParsePrinted(ss);
  }

  /** `if (a) if (b) c; else 4;` gives the else to the inner `if`. */
  lemma DanglingElse()
    ensures Parse(DanglingTokens) == Ok([IfStmt(Variable(A), DanglingInner, None)])
  {
    var ss := [IfStmt(Variable(A), DanglingInner, None)];
    assert WellFormedBlock(ss);
    DanglingPrinted();
    ParsePrinted(ss);
  }

  const DanglingInner := IfStmt(Variable(B), ExprStmt(Variable(C)), Some(ExprStmt(Literal(Four))))
  const DanglingTokens := [IfTok, LParenTok, A, RParenTok, IfTok, LParenTok, B, RParenTok,
                           C, SemicolonTok, ElseTok, Four, SemicolonTok, EofTok]

  lemma DanglingPrinted()
    ensures PrintBlock([IfStmt(Variable(A), DanglingInner, None)]) + [EofTok] == DanglingTokens
  {
    var inner := DanglingInner;
    assert Print(Variable(C), 0) == [C];
    assert PrintStmt(ExprStmt(Literal(Four))) == [Four, SemicolonTok];
    assert PrintElse(inner.elseBranch) == [ElseTok, Four, SemicolonTok];
    assert Guard(IfTok, Variable(B)) == [IfTok, LParenTok, B, RParenTok];
    assert PrintStmt(inner) == [IfTok, LParenTok, B, RParenTok, C, SemicolonTok, ElseTok, Four, SemicolonTok];
    assert PrintBlock([IfStmt(Variable(A), inner, None)]) == Guard(IfTok, Variable(A)) + PrintStmt(inner);
  }

  // ---------------------------------------------------------------------
  // Rejected inputs
  // ---------------------------------------------------------------------

  /** An integer or a name followed by a token that no level takes is
      read by every level as that single primary. */
  lemma {:induction false} AtomLevel(toks: seq<Token>, k: int, pos: nat)
    requires IsLevel(k) && Cursor(toks, pos) && pos + 1 < |toks|
    requires toks[pos].kind == Int || toks[pos].kind == Identifier
    requires Binding(toks[pos + 1].kind) < 1
    ensures Level(toks, k, pos).Ok? && Level(toks, k, pos).value.next == pos + 1
    ensures Level(toks, k, pos).value.node
         == if toks[pos].kind == Int then Literal(toks[pos]) else Variable(toks[pos])
    decreases 4 - k
  {
    var atom := if toks[pos].kind == Int then Literal(toks[pos]) else Variable(toks[pos]);
    if k < 4 {
      AtomLevel(toks, k + 1, pos);
    }
    assert Operand(toks, k, pos) == Ok(Parsed(atom, pos + 1));
    LevelBinding(toks[pos + 1].kind, k);
    assert Tail(toks, k, atom, pos + 1) == Ok(Parsed(atom, pos + 1));
  }

  /** `1 = 2;` is rejected: only a variable can be assigned. */
  lemma AssignToLiteral()
    ensures Parse([Four, AssignTok, Five, SemicolonTok, EofTok]) == Err(InvalidAssignmentTarget)
  {
    var toks := [Four, AssignTok, Five, SemicolonTok, EofTok];
    AtomLevel(toks, 1, 0);
    AtomLevel(toks, 1, 2);
    assert Expression(toks, 2) == Ok(Parsed(Literal(Five), 3));
    assert Expression(toks, 0) == Err(InvalidAssignmentTarget);
  }

  /** `{ a;` is rejected: the block reaches end-of-file without `}`. */
  lemma UnclosedBlock()
    ensures Parse([LBraceTok, A, SemicolonTok, EofTok]) == Err(ExpectedRBrace)
  {
    var toks := [LBraceTok, A, SemicolonTok, EofTok];
    AtomLevel(toks, 1, 1);
    assert Expression(toks, 1) == Ok(Parsed(Variable(A), 2));
    assert Statement(toks, 1) == Ok(Parsed(ExprStmt(Variable(A)), 3));
    assert BlockBody(toks, 3) == Ok(Parsed([], 3));
    assert [ExprStmt(Variable(A))] + [] == [ExprStmt(Variable(A))];
    assert BlockBody(toks, 1) == Ok(Parsed([ExprStmt(Variable(A))], 3));
    assert Statement(toks, 0) == Err(ExpectedRBrace);
  }

  /** `let 4 = 5;` is rejected: a name must follow `let`. */
  lemma LetWithoutName()
    ensures Parse([LetTok, Four, AssignTok, Five, SemicolonTok, EofTok]) == Err(ExpectedLetName)
  {
  }
}
