/** The scanner: turns program text into a token sequence.

    The text is a C string, so the model reads it through `At`, which yields
    '\0' past the end; a '\0' inside the text ends the scan just as the C
    terminator does. Characters are classified as in the C locale. */
module Lexer {
  import opened Results
  import opened Values

  /** Every token kind the language declares; `Float`, `NotEqual` and
      `Error` are declared but never produced by the scanner. */
  newtype TokenType = x: int | 0 <= x < 32

  const Let: TokenType := 0
  const Fn: TokenType := 1
  const Yap: TokenType := 2
  const Return: TokenType := 3
  const If: TokenType := 4
  const While: TokenType := 5
  const Else: TokenType := 6
  const Identifier: TokenType := 7
  const Int: TokenType := 8
  const Float: TokenType := 9
  const Assign: TokenType := 10
  const Plus: TokenType := 11
  const Minus: TokenType := 12
  const Star: TokenType := 13
  const Slash: TokenType := 14
  const Equal: TokenType := 15
  const Bang: TokenType := 16
  const BangEqual: TokenType := 17
  const NotEqual: TokenType := 18
  const Less: TokenType := 19
  const LessEqual: TokenType := 20
  const Greater: TokenType := 21
  const GreaterEqual: TokenType := 22
  const LParen: TokenType := 23
  const RParen: TokenType := 24
  const LBrace: TokenType := 25
  const RBrace: TokenType := 26
  const Semicolon: TokenType := 27
  const Comma: TokenType := 28
  const Eof: TokenType := 29
  const Unknown: TokenType := 30
  const Error: TokenType := 31

  /** A token: its kind, a copy of the text it was scanned from, and its
      1-indexed source line. */
  datatype Token = Token(kind: TokenType, lexeme: string, line: int)

  /** A scanned token together with the source index its text starts at. */
  datatype Lexed = Lexed(token: Token, start: nat)

  /** One unrecognised character and the line it was found on. */
  datatype BadChar = BadChar(ch: char, line: int)

  /** The batch lexical error: the unrecognised characters in source order. */
  datatype LexError = UnexpectedCharacters(chars: seq<BadChar>)

  /** At most this many unrecognised characters are recorded. */
  const MaxUnexpected: nat := 128

  // ---------------------------------------------------------------------
  // Character classes (C locale); `IsSpace` and `IsDigit` are the ones
  // `atoi` uses, from Values
  // ---------------------------------------------------------------------

  predicate IsAlpha(c: char) {
    ('a' <= c <= 'z') || ('A' <= c <= 'Z')
  }

  /** Characters that may continue an identifier. */
  predicate IsWordChar(c: char) {
    IsAlpha(c) || IsDigit(c) || c == '_'
  }

  /** The character at index i of the C string, or its terminator. */
  function At(src: string, i: nat): char {
    if i < |src| then src[i] else '\0'
  }

  // ---------------------------------------------------------------------
  // Keywords
  // ---------------------------------------------------------------------

  /** The kinds a word scans to: the seven keyword kinds and `Identifier`. */
  predicate IsWordKind(k: TokenType) {
    k <= Identifier
  }

  /** The keyword table, searched front to back. */
  const KeywordTable: seq<(string, TokenType)> :=
    [("let", Let), ("fn", Fn), ("yap", Yap), ("return", Return),
     ("if", If), ("else", Else), ("while", While)]

  /** The seven reserved words and the kind each one scans to. */
  const Keywords: map<string, TokenType> :=
    map["let" := Let, "fn" := Fn, "yap" := Yap, "return" := Return,
        "if" := If, "else" := Else, "while" := While]

  /** Linear search of a keyword table; the first matching entry wins. */
  function SearchKeyword(table: seq<(string, TokenType)>, word: string): (r: TokenType)
    requires forall k | 0 <= k < |table| :: table[k].1 != Identifier
    ensures r == Identifier <==> forall k | 0 <= k < |table| :: table[k].0 != word
    ensures r != Identifier ==> exists k | 0 <= k < |table| :: table[k] == (word, r)
  {
    if |table| == 0 then Identifier
    else if table[0].0 == word then table[0].1
    else
      var r := SearchKeyword(table[1..], word);
      assert forall k | 1 <= k < |table| :: table[k] == table[1..][k - 1];
      r
  }

  /** The kind of a scanned word: its keyword kind on an exact whole-word
      match, otherwise `Identifier`. */
  function CheckKeyword(word: string): (r: TokenType)
    ensures word in Keywords <==> r != Identifier
    ensures word in Keywords ==> r == Keywords[word]
    ensures IsWordKind(r)
  {
    var r := SearchKeyword(KeywordTable, word);
    assert forall k | 0 <= k < |KeywordTable| ::
      (KeywordTable[k].0 in Keywords && Keywords[KeywordTable[k].0] == KeywordTable[k].1);
    assert word in Keywords ==> exists k | 0 <= k < |KeywordTable| :: KeywordTable[k].0 == word by {
      if word in Keywords {
        assert word == "let" || word == "fn" || word == "yap" || word == "return"
          || word == "if" || word == "else" || word == "while";
        if word == "let" { assert KeywordTable[0].0 == word; }
        else if word == "fn" { assert KeywordTable[1].0 == word; }
        else if word == "yap" { assert KeywordTable[2].0 == word; }
        else if word == "return" { assert KeywordTable[3].0 == word; }
        else if word == "if" { assert KeywordTable[4].0 == word; }
        else if word == "else" { assert KeywordTable[5].0 == word; }
        else { assert KeywordTable[6].0 == word; }
      }
    }
    r
  }

  // ---------------------------------------------------------------------
  // Scanning
  // ---------------------------------------------------------------------

  /** The end of the maximal run of identifier characters starting at i. */
  function WordEnd(src: string, i: nat): (j: nat)
    requires i <= |src|
    ensures i <= j <= |src|
    ensures forall k | i <= k < j :: IsWordChar(src[k])
    ensures !IsWordChar(At(src, j))
    decreases |src| - i
  {
    if IsWordChar(At(src, i)) then WordEnd(src, i + 1) else i
  }

  /** The end of the maximal run of digits starting at i. */
  function DigitsEnd(src: string, i: nat): (j: nat)
    requires i <= |src|
    ensures i <= j <= |src|
    ensures forall k | i <= k < j :: IsDigit(src[k])
    ensures !IsDigit(At(src, j))
    decreases |src| - i
  {
    if IsDigit(At(src, i)) then DigitsEnd(src, i + 1) else i
  }

  /** The index of the newline or terminator that ends a line comment. */
  function CommentEnd(src: string, i: nat): (j: nat)
    requires i <= |src|
    ensures i <= j <= |src|
    ensures forall k | i <= k < j :: src[k] != '\n' && src[k] != '\0'
    ensures At(src, j) == '\n' || At(src, j) == '\0'
    decreases |src| - i
  {
    var c := At(src, i);
    if c != '\0' && c != '\n' then CommentEnd(src, i + 1) else i
  }

  /** The operator or delimiter that starts with c when the next character
      is `next`, and its length; `Unknown` for any other character. */
  function Punctuation(c: char, next: char): (TokenType, nat) {
    match c
    case '+' => (Plus, 1)
    case '-' => (Minus, 1)
    case '*' => (Star, 1)
    case '/' => (Slash, 1)
    case '=' => if next == '=' then (Equal, 2) else (Assign, 1)
    case '!' => if next == '=' then (BangEqual, 2) else (Bang, 1)
    case '<' => if next == '=' then (LessEqual, 2) else (Less, 1)
    case '>' => if next == '=' then (GreaterEqual, 2) else (Greater, 1)
    case ';' => (Semicolon, 1)
    case ',' => (Comma, 1)
    case '(' => (LParen, 1)
    case ')' => (RParen, 1)
    case '{' => (LBrace, 1)
    case '}' => (RBrace, 1)
    case _ => (Unknown, 1)
  }

  /** The outcome of one iteration of the scanning loop: the token it
      emitted (if any), the index it stopped at and the line counter. */
  datatype Stepped = Stepped(emitted: seq<Lexed>, next: nat, line: int)

  /** One iteration of the scanning loop at a character that is not the
      terminator: skip whitespace (counting newlines) or a line comment, or
      emit one token. */
  function ScanStep(src: string, i: nat, line: int): (s: Stepped)
    requires i < |src| && src[i] != '\0'
    ensures i < s.next <= |src| && |s.emitted| <= 1
  {
    var c := src[i];
    if IsSpace(c) then
      Stepped([], i + 1, if c == '\n' then line + 1 else line)
    else if IsAlpha(c) || c == '_' then
      var j := WordEnd(src, i);
      Stepped([Lexed(Token(CheckKeyword(src[i..j]), src[i..j], line), i)], j, line)
    else if IsDigit(c) then
      var j := DigitsEnd(src, i);
      Stepped([Lexed(Token(Int, src[i..j], line), i)], j, line)
    else if c == '/' && At(src, i + 1) == '/' then
      Stepped([], CommentEnd(src, i), line)
    else
      var (kind, len) := Punctuation(c, At(src, i + 1));
      Stepped([Lexed(Token(kind, src[i..i + len], line), i)], i + len, line)
  }

  /** Scans from index i, where the current line number is `line`, to the
      terminator, and appends the end-of-file token. Unrecognised characters
      become `Unknown` tokens here; `Tokenize` turns them into the error. */
  function Scan(src: string, i: nat, line: int): (r: seq<Lexed>)
    requires i <= |src|
    ensures |r| > 0 && r[|r| - 1].token.kind == Eof && r[|r| - 1].token.lexeme == ""
    ensures forall k | 0 <= k < |r| - 1 :: r[k].token.kind != Eof
    decreases |src| - i
  {
    if At(src, i) == '\0' then
      [Lexed(Token(Eof, "", line), i)]
    else
      var s := ScanStep(src, i, line);
      s.emitted + Scan(src, s.next, s.line)
  }

  /** The tokens of a scan, without their start indices. */
  function Tokens(ls: seq<Lexed>): (ts: seq<Token>)
    ensures |ts| == |ls|
    ensures forall k | 0 <= k < |ls| :: ts[k] == ls[k].token
  {
    if |ls| == 0 then [] else [ls[0].token] + Tokens(ls[1..])
  }

  /** The unrecognised characters of a scan, in source order. */
  function Unexpected(ls: seq<Lexed>): seq<BadChar> {
    if |ls| == 0 then []
    else
      var rest := Unexpected(ls[1..]);
      if ls[0].token.kind == Unknown && |ls[0].token.lexeme| > 0
      then [BadChar(ls[0].token.lexeme[0], ls[0].token.line)] + rest
      else rest
  }

  /** Scans the whole text starting on line 1. Fails, listing the first 128
      unrecognised characters, when any character is unrecognised. */
  function Tokenize(src: string): Result<seq<Token>, LexError> {
    var ls := Scan(src, 0, 1);
    var bad := Unexpected(ls);
    if |bad| > 0 then
      Err(UnexpectedCharacters(if |bad| <= MaxUnexpected then bad else bad[..MaxUnexpected]))
    else
      Ok(Tokens(ls))
  }
}
