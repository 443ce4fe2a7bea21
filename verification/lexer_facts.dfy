/** What the scanner guarantees about its output, stated against the source
    text: lexemes are source slices in order, each token obeys its scanning
    rule (maximal munch, whole-word keywords, greedy two-character
    operators), line numbers count newlines, and the lexemes put together
    are the text with whitespace and comments removed. */
module LexerFacts {
  import opened Results
  import opened Lexer
  import opened Values

  // ---------------------------------------------------------------------
  // Reference definitions
  // ---------------------------------------------------------------------

  /** Characters that start some token or a comment. */
  predicate Recognized(c: char) {
    IsSpace(c) || IsWordChar(c) || c == '\0'
    || c == '+' || c == '-' || c == '*' || c == '/' || c == '=' || c == '!'
    || c == '<' || c == '>' || c == ';' || c == ',' || c == '('
    || c == ')' || c == '{' || c == '}'
  }

  /** The scanning rule of one token, judged against the text around it. */
  predicate FollowsRule(src: string, l: Lexed) {
    if IsWordKind(l.token.kind) then WordFollows(src, l) else SymbolFollows(src, l)
  }

  /** A word: a maximal run of identifier characters starting with a
      letter or `_`, whose kind is its keyword kind or `Identifier`. */
  predicate WordFollows(src: string, l: Lexed) {
    var t := l.token;
    && |t.lexeme| > 0
    && (IsAlpha(t.lexeme[0]) || t.lexeme[0] == '_')
    && (forall k | 0 <= k < |t.lexeme| :: IsWordChar(t.lexeme[k]))
    && !IsWordChar(At(src, l.start + |t.lexeme|))
    && t.kind == CheckKeyword(t.lexeme)
  }

  /** Every other kind: end of file, a maximal digit run, an operator
      taking a following `=` whenever it can, a delimiter, or a single
      unrecognised character. */
  predicate SymbolFollows(src: string, l: Lexed) {
    var t := l.token;
    var next := At(src, l.start + |t.lexeme|);
    match t.kind
    case Eof => t.lexeme == "" && At(src, l.start) == '\0'
    case Int =>
      && |t.lexeme| > 0
      && (forall k | 0 <= k < |t.lexeme| :: IsDigit(t.lexeme[k]))
      && !IsDigit(next)
    case Assign => t.lexeme == "=" && next != '='
    case Bang => t.lexeme == "!" && next != '='
    case Less => t.lexeme == "<" && next != '='
    case Greater => t.lexeme == ">" && next != '='
    case Equal => t.lexeme == "=="
    case BangEqual => t.lexeme == "!="
    case LessEqual => t.lexeme == "<="
    case GreaterEqual => t.lexeme == ">="
    case Plus => t.lexeme == "+"
    case Minus => t.lexeme == "-"
    case Star => t.lexeme == "*"
    case Slash => t.lexeme == "/" && next != '/'
    case Semicolon => t.lexeme == ";"
    case Comma => t.lexeme == ","
    case LParen => t.lexeme == "("
    case RParen => t.lexeme == ")"
    case LBrace => t.lexeme == "{"
    case RBrace => t.lexeme == "}"
    case Unknown => |t.lexeme| == 1 && !Recognized(t.lexeme[0])
    case _ => false
  }

  /** No scanning rule produces a float, not-equal or error token. */
  lemma RuleKinds(src: string, l: Lexed)
    requires FollowsRule(src, l)
    ensures l.token.kind != Float && l.token.kind != NotEqual && l.token.kind != Error
  {
  }

  /** The number of newline characters in s. */
  function Newlines(s: string): nat {
    if |s| == 0 then 0 else (if s[0] == '\n' then 1 else 0) + Newlines(s[1..])
  }

  /** The 1-indexed line that source index p lies on. */
  function LineAt(src: string, p: nat): int
    requires p <= |src|
  {
    1 + Newlines(src[..p])
  }

  /** The text from index i on, with whitespace and line comments removed. */
  function Strip(src: string, i: nat): string
    requires i <= |src|
    decreases |src| - i
  {
    var c := At(src, i);
    if c == '\0' then ""
    else if IsSpace(c) then Strip(src, i + 1)
    else if c == '/' && At(src, i + 1) == '/' then Strip(src, CommentEnd(src, i))
    else [c] + Strip(src, i + 1)
  }

  /** The lexemes of a scan, joined. */
  function Concat(ls: seq<Lexed>): string {
    if |ls| == 0 then "" else ls[0].token.lexeme + Concat(ls[1..])
  }

  /** Every lexeme is the slice of the text at its start index, at or after i. */
  predicate Slices(src: string, ls: seq<Lexed>, i: nat) {
    forall k | 0 <= k < |ls| ::
      && i <= ls[k].start
      && ls[k].start + |ls[k].token.lexeme| <= |src|
      && src[ls[k].start..ls[k].start + |ls[k].token.lexeme|] == ls[k].token.lexeme
  }

  /** Tokens appear in source order and do not overlap. */
  predicate InOrder(ls: seq<Lexed>) {
    forall k | 0 <= k < |ls| - 1 :: ls[k].start + |ls[k].token.lexeme| <= ls[k + 1].start
  }

  // ---------------------------------------------------------------------
  // Helper facts
  // ---------------------------------------------------------------------

  lemma NewlinesAppend(a: string, b: string)
    ensures Newlines(a + b) == Newlines(a) + Newlines(b)
  {
    if |a| > 0 {
      assert (a + b)[1..] == a[1..] + b;
      NewlinesAppend(a[1..], b);
    } else {
      assert a + b == b;
    }
  }

  /** Moving over characters that are not newlines keeps the line. */
  lemma {:induction false} LineAtRun(src: string, i: nat, j: nat)
    requires i <= j <= |src|
    requires forall k | i <= k < j :: src[k] != '\n'
    ensures LineAt(src, j) == LineAt(src, i)
    decreases j - i
  {
    if i < j {
      LineAtRun(src, i, j - 1);
      assert src[..j] == src[..j - 1] + [src[j - 1]];
      NewlinesAppend(src[..j - 1], [src[j - 1]]);
    }
  }

  lemma LineAtStep(src: string, i: nat)
    requires i < |src|
    ensures LineAt(src, i + 1) == LineAt(src, i) + (if src[i] == '\n' then 1 else 0)
  {
    assert src[..i + 1] == src[..i] + [src[i]];
    NewlinesAppend(src[..i], [src[i]]);
  }

  /** Over a run of ordinary characters, Strip keeps them all. */
  lemma {:induction false} StripRun(src: string, i: nat, j: nat)
    requires i <= j <= |src|
    requires forall k | i <= k < j :: !IsSpace(src[k]) && src[k] != '\0' && !(src[k] == '/' && At(src, k + 1) == '/')
    ensures Strip(src, i) == src[i..j] + Strip(src, j)
    decreases j - i
  {
    if i < j {
      StripRun(src, i + 1, j);
      assert src[i..j] == [src[i]] + src[i + 1..j];
    }
  }

  lemma ConcatCons(x: Lexed, rest: seq<Lexed>)
    ensures Concat([x] + rest) == x.token.lexeme + Concat(rest)
  {
    assert ([x] + rest)[1..] == rest;
  }

  // ---------------------------------------------------------------------
  // One iteration of the scanning loop
  // ---------------------------------------------------------------------

  lemma StepSlices(src: string, i: nat, line: int)
    requires i < |src| && src[i] != '\0'
    ensures Slices(src, ScanStep(src, i, line).emitted, i)
    ensures forall k | 0 <= k < |ScanStep(src, i, line).emitted| ::
      ScanStep(src, i, line).emitted[k].start + |ScanStep(src, i, line).emitted[k].token.lexeme|
        <= ScanStep(src, i, line).next
  {
  }

  lemma StepRules(src: string, i: nat, line: int)
    requires i < |src| && src[i] != '\0'
    ensures forall k | 0 <= k < |ScanStep(src, i, line).emitted| ::
      FollowsRule(src, ScanStep(src, i, line).emitted[k])
  {
    var c := src[i];
    if IsSpace(c) {
    } else if IsAlpha(c) || c == '_' {
      var j := WordEnd(src, i);
      var w := src[i..j];
      WordRule(src, i, line, j, w);
      assert ScanStep(src, i, line).emitted == [Lexed(Token(CheckKeyword(w), w, line), i)];
    } else if IsDigit(c) {
      var j := DigitsEnd(src, i);
      assert FollowsRule(src, Lexed(Token(Int, src[i..j], line), i));
    } else if c == '/' && At(src, i + 1) == '/' {
    } else {
      PunctuationRule(src, i, line);
    }
  }

  lemma WordRule(src: string, i: nat, line: int, j: nat, w: string)
    requires i < |src| && (IsAlpha(src[i]) || src[i] == '_')
    requires j == WordEnd(src, i) && w == src[i..j]
    ensures FollowsRule(src, Lexed(Token(CheckKeyword(w), w, line), i))
  {
    assert w[0] == src[i];
    assert forall k | 0 <= k < |w| :: w[k] == src[i + k];
    assert WordFollows(src, Lexed(Token(CheckKeyword(w), w, line), i));
  }

  lemma PunctuationRule(src: string, i: nat, line: int)
    requires i < |src| && src[i] != '\0' && !IsSpace(src[i]) && !IsWordChar(src[i])
    requires !(src[i] == '/' && At(src, i + 1) == '/')
    ensures FollowsRule(src, ScanStep(src, i, line).emitted[0])
  {
    var c := src[i];
    var (kind, len) := Punctuation(c, At(src, i + 1));
    var l := Lexed(Token(kind, src[i..i + len], line), i);
    assert ScanStep(src, i, line).emitted[0] == l;
    if len == 1 {
      assert src[i..i + 1] == [c];
    } else {
      assert src[i..i + 2] == [c, '='];
    }
  }

  lemma StepLines(src: string, i: nat, line: int)
    requires i < |src| && src[i] != '\0'
    requires line == LineAt(src, i)
    ensures ScanStep(src, i, line).line == LineAt(src, ScanStep(src, i, line).next)
    ensures forall k | 0 <= k < |ScanStep(src, i, line).emitted| ::
      ScanStep(src, i, line).emitted[k].start == i
      && ScanStep(src, i, line).emitted[k].token.line == line
  {
    var s := ScanStep(src, i, line);
    var c := src[i];
    if IsSpace(c) {
      LineAtStep(src, i);
    } else {
      assert forall k | i <= k < s.next :: src[k] != '\n';
      LineAtRun(src, i, s.next);
    }
  }

  lemma StepConcat(src: string, i: nat, line: int)
    requires i < |src| && src[i] != '\0'
    ensures Strip(src, i) == Concat(ScanStep(src, i, line).emitted) + Strip(src, ScanStep(src, i, line).next)
  {
    var c := src[i];
    if IsSpace(c) || (c == '/' && At(src, i + 1) == '/') {
      assert ScanStep(src, i, line).emitted == [];
    } else if IsAlpha(c) || c == '_' || IsDigit(c) {
      RunConcat(src, i, line, ScanStep(src, i, line));
    } else {
      PunctuationConcat(src, i, line);
    }
  }

  /** The word and number cases of StepConcat: the token is the run of
      characters the step moves over. */
  lemma RunConcat(src: string, i: nat, line: int, s: Stepped)
    requires i < |src| && (IsWordChar(src[i]))
    requires s == ScanStep(src, i, line)
    ensures Strip(src, i) == Concat(s.emitted) + Strip(src, s.next)
  {
    assert |s.emitted| == 1 && s.emitted[0].token.lexeme == src[i..s.next];
    assert s.emitted == [s.emitted[0]];
    ConcatOne(s.emitted[0]);
    StripRun(src, i, s.next);
  }

  /** The step at an operator or delimiter emits its token. */
  lemma PunctuationStep(src: string, i: nat, line: int)
    requires i < |src| && src[i] != '\0'
    requires !IsSpace(src[i]) && !IsWordChar(src[i]) && !(src[i] == '/' && At(src, i + 1) == '/')
    ensures var (kind, len) := Punctuation(src[i], At(src, i + 1));
      && i + len <= |src|
      && ScanStep(src, i, line) == Stepped([Lexed(Token(kind, src[i..i + len], line), i)], i + len, line)
  {
  }

  lemma PunctuationConcat(src: string, i: nat, line: int)
    requires i < |src| && src[i] != '\0' && !IsSpace(src[i]) && !IsWordChar(src[i])
    requires !(src[i] == '/' && At(src, i + 1) == '/')
    ensures Strip(src, i) == Concat(ScanStep(src, i, line).emitted) + Strip(src, ScanStep(src, i, line).next)
  {
    assert !IsSpace('=');
    hide *;
    var c := src[i];
    var (kind, len) := Punctuation(c, At(src, i + 1));
    PunctuationStep(src, i, line);
    PunctuationWidth(c, At(src, i + 1));
    AtInside(src, i + 1);
    ConcatOne(Lexed(Token(kind, src[i..i + len], line), i));
    StripRun(src, i, i + len);
  }

  /** An operator or delimiter is one character, or two when the second
      is `=`. */
  lemma PunctuationWidth(c: char, next: char)
    ensures var (kind, len) := Punctuation(c, next);
      len == 1 || (len == 2 && next == '=')
  {
  }

  /** Inside the text, `At` reads the character there. */
  lemma AtInside(src: string, i: nat)
    ensures i < |src| ==> At(src, i) == src[i]
  {
  }

  lemma ConcatOne(x: Lexed)
    ensures Concat([x]) == x.token.lexeme
  {
    assert [x][1..] == [];
  }

  // ---------------------------------------------------------------------
  // Properties of a scan
  // ---------------------------------------------------------------------

  /** Each lexeme is an in-order, non-overlapping slice of the source. */
  lemma {:induction false} ScanSlices(src: string, i: nat, line: int)
    requires i <= |src|
    ensures Slices(src, Scan(src, i, line), i)
    ensures InOrder(Scan(src, i, line))
    decreases |src| - i
  {
    if At(src, i) != '\0' {
      var s := ScanStep(src, i, line);
      StepSlices(src, i, line);
      ScanSlices(src, s.next, s.line);
      var rest := Scan(src, s.next, s.line);
      assert Scan(src, i, line) == s.emitted + rest;
      SlicesAppend(src, s.emitted, rest, i, s.next);
    }
  }

  /** Slices and order of a step's output followed by the rest of the scan. */
  lemma SlicesAppend(src: string, a: seq<Lexed>, b: seq<Lexed>, i: nat, mid: nat)
    requires |a| <= 1 && Slices(src, a, i) && Slices(src, b, mid) && InOrder(b)
    requires i <= mid && forall k | 0 <= k < |a| :: a[k].start + |a[k].token.lexeme| <= mid
    ensures Slices(src, a + b, i) && InOrder(a + b)
  {
    var ab := a + b;
    forall k | 0 <= k < |ab|
      ensures i <= ab[k].start
      ensures ab[k].start + |ab[k].token.lexeme| <= |src|
      ensures src[ab[k].start..ab[k].start + |ab[k].token.lexeme|] == ab[k].token.lexeme
    {
      if k < |a| { assert ab[k] == a[k]; } else { assert ab[k] == b[k - |a|]; }
    }
    forall k | 0 <= k < |ab| - 1
      ensures ab[k].start + |ab[k].token.lexeme| <= ab[k + 1].start
    {
      if k < |a| {
        assert ab[k] == a[k] && ab[k + 1] == b[0];
      } else {
        assert ab[k] == b[k - |a|] && ab[k + 1] == b[k + 1 - |a|];
      }
    }
  }

  /** Every scanned token obeys the scanning rule of its kind. */
  lemma {:induction false} ScanRules(src: string, i: nat, line: int)
    requires i <= |src|
    ensures forall k | 0 <= k < |Scan(src, i, line)| :: FollowsRule(src, Scan(src, i, line)[k])
    decreases |src| - i
  {
    if At(src, i) != '\0' {
      var s := ScanStep(src, i, line);
      StepRules(src, i, line);
      ScanRules(src, s.next, s.line);
      assert Scan(src, i, line) == s.emitted + Scan(src, s.next, s.line);
    }
  }

  /** A token's line is 1 plus the number of newlines before its start. */
  lemma {:induction false} ScanLines(src: string, i: nat, line: int)
    requires i <= |src|
    requires line == LineAt(src, i)
    ensures forall k | 0 <= k < |Scan(src, i, line)| ::
      Scan(src, i, line)[k].start <= |src|
      && Scan(src, i, line)[k].token.line == LineAt(src, Scan(src, i, line)[k].start)
    decreases |src| - i
  {
    if At(src, i) != '\0' {
      var s := ScanStep(src, i, line);
      StepLines(src, i, line);
      ScanLines(src, s.next, s.line);
      assert Scan(src, i, line) == s.emitted + Scan(src, s.next, s.line);
    }
  }

  /** Joining the lexemes gives the text without whitespace and comments. */
  lemma {:induction false} ScanConcat(src: string, i: nat, line: int)
    requires i <= |src|
    ensures Concat(Scan(src, i, line)) == Strip(src, i)
    decreases |src| - i
  {
    if At(src, i) == '\0' {
      ConcatOne(Scan(src, i, line)[0]);
    } else {
      var s := ScanStep(src, i, line);
      var rest := Scan(src, s.next, s.line);
      StepConcat(src, i, line);
      ScanConcat(src, s.next, s.line);
      assert Scan(src, i, line) == s.emitted + rest;
      ConcatAppend(s.emitted, rest);
    }
  }

  /** Concat over a step's output (at most one token) and the rest. */
  lemma ConcatAppend(a: seq<Lexed>, b: seq<Lexed>)
    requires |a| <= 1
    ensures Concat(a + b) == Concat(a) + Concat(b)
  {
    if |a| == 1 {
      assert a == [a[0]];
      ConcatCons(a[0], b);
      ConcatOne(a[0]);
    } else {
      assert a + b == b;
    }
  }
}

module TokenizeFacts {
  import opened Results
  import opened Lexer
  import opened LexerFacts
  import opened Values

  /** True when some scanned token is an unrecognised character. */
  predicate HasUnknown(ls: seq<Lexed>) {
    exists k | 0 <= k < |ls| :: ls[k].token.kind == Unknown
  }

  lemma {:induction false} UnexpectedEmpty(src: string, ls: seq<Lexed>)
    requires forall k | 0 <= k < |ls| :: FollowsRule(src, ls[k])
    ensures |Unexpected(ls)| == 0 <==> !HasUnknown(ls)
  {
    if |ls| > 0 {
      UnexpectedEmpty(src, ls[1..]);
      assert FollowsRule(src, ls[0]);
      if HasUnknown(ls) && ls[0].token.kind != Unknown {
        var k :| 0 <= k < |ls| && ls[k].token.kind == Unknown;
        assert ls[1..][k - 1].token.kind == Unknown;
      }
      if HasUnknown(ls[1..]) {
        var k :| 0 <= k < |ls[1..]| && ls[1..][k].token.kind == Unknown;
        assert ls[k + 1].token.kind == Unknown;
      }
    }
  }

  /** Tokenize fails exactly when the scan met an unrecognised character,
      and then reports between one and 128 of them. */
  lemma TokenizeFails(src: string)
    ensures Tokenize(src).Err? <==> HasUnknown(Scan(src, 0, 1))
    ensures Tokenize(src).Err? ==> 0 < |Tokenize(src).error.chars| <= MaxUnexpected
  {
    ScanRules(src, 0, 1);
    UnexpectedEmpty(src, Scan(src, 0, 1));
  }

  /** A successful tokenization ends with the single empty end-of-file
      token and holds no unknown, float, not-equal or error token. */
  lemma TokenizeShape(src: string)
    requires Tokenize(src).Ok?
    ensures
      var ts := Tokenize(src).value;
      && |ts| > 0
      && ts[|ts| - 1].kind == Eof && ts[|ts| - 1].lexeme == ""
      && (forall k | 0 <= k < |ts| - 1 :: ts[k].kind != Eof)
      && (forall k | 0 <= k < |ts| :: !IsFailureKind(ts[k].kind))
  {
    var ls := Scan(src, 0, 1);
    TokenizeValue(src);
    TokenizeFails(src);
    ScanRules(src, 0, 1);
    var ts := Tokenize(src).value;
    forall k | 0 <= k < |ts|
      ensures !IsFailureKind(ts[k].kind)
    {
      assert ts[k] == ls[k].token;
      RuleKinds(src, ls[k]);
      assert ls[k].token.kind != Unknown;
    }
  }

  /** Kinds a successful scan never yields. */
  predicate IsFailureKind(k: TokenType) {
    k == Unknown || k == Float || k == NotEqual || k == Error
  }

  /** A successful tokenization is the scan's tokens. */
  lemma TokenizeValue(src: string)
    requires Tokenize(src).Ok?
    ensures Tokenize(src).value == Tokens(Scan(src, 0, 1))
    ensures |Tokenize(src).value| == |Scan(src, 0, 1)|
  {
  }

  /** Every token of a whole-text scan is the text at its start index, on
      the line given by the newlines before it. */
  lemma WholeScan(src: string)
    ensures var ls := Scan(src, 0, 1);
      forall k | 0 <= k < |ls| ::
        && ls[k].start + |ls[k].token.lexeme| <= |src|
        && ls[k].token.line == LineAt(src, ls[k].start)
        && ls[k].token.lexeme == src[ls[k].start..ls[k].start + |ls[k].token.lexeme|]
  {
    assert src[..0] == [];
    ScanLines(src, 0, 1);
    ScanSlices(src, 0, 1);
  }

  /** Every token of a successful tokenization sits on the line given by
      the newlines before its text, and its lexeme is that text. */
  lemma TokenizeLines(src: string)
    requires Tokenize(src).Ok?
    ensures
      var ts := Tokenize(src).value;
      var ls := Scan(src, 0, 1);
      && |ts| == |ls|
      && forall k | 0 <= k < |ts| ::
        && ls[k].start + |ts[k].lexeme| <= |src|
        && ts[k].line == LineAt(src, ls[k].start)
        && ts[k].lexeme == src[ls[k].start..ls[k].start + |ts[k].lexeme|]
  {
    hide *;
    TokenizeValue(src);
    WholeScan(src);
  }

  // ---------------------------------------------------------------------
  // The error report
  // ---------------------------------------------------------------------

  /** The indices from i on, before the terminator and outside line
      comments, of the characters no scanning rule accepts, in increasing
      order. */
  function UnrecognisedFrom(src: string, i: nat): (ps: seq<nat>)
    requires i <= |src|
    ensures forall k | 0 <= k < |ps| ::
      i <= ps[k] < |src| && !Recognized(src[ps[k]])
    ensures forall k | 0 <= k < |ps| - 1 :: ps[k] < ps[k + 1]
    decreases |src| - i
  {
    var c := At(src, i);
    if c == '\0' then []
    else if c == '/' && At(src, i + 1) == '/' then
      var j := CommentEnd(src, i);
      UnrecognisedFrom(src, j)
    else
      var ps := UnrecognisedFrom(src, i + 1);
      if Recognized(c) then ps else [i] + ps
  }

  /** Every reported index lies before the terminator. */
  lemma {:induction false} BeforeTerminator(src: string, i: nat)
    requires i <= |src|
    ensures forall p | p in UnrecognisedFrom(src, i) :: forall m | i <= m < p :: src[m] != '\0'
    decreases |src| - i
  {
    var c := At(src, i);
    if c != '\0' {
      if c == '/' && At(src, i + 1) == '/' {
        BeforeTerminator(src, CommentEnd(src, i));
      } else {
        BeforeTerminator(src, i + 1);
      }
    }
  }

  /** The report line of each index: its character and its line. */
  function Reports(src: string, ps: seq<nat>): (r: seq<BadChar>)
    requires forall k | 0 <= k < |ps| :: ps[k] < |src|
    ensures |r| == |ps|
    ensures forall k | 0 <= k < |ps| :: r[k] == BadChar(src[ps[k]], LineAt(src, ps[k]))
  {
    if |ps| == 0 then [] else [BadChar(src[ps[0]], LineAt(src, ps[0]))] + Reports(src, ps[1..])
  }

  /** Moving over accepted characters that start no comment finds no
      unrecognised index. */
  lemma {:induction false} SkipAccepted(src: string, i: nat, j: nat)
    requires i <= j <= |src|
    requires forall k | i <= k < j ::
      Recognized(src[k]) && src[k] != '\0' && !(src[k] == '/' && At(src, k + 1) == '/')
    ensures UnrecognisedFrom(src, i) == UnrecognisedFrom(src, j)
    decreases j - i
  {
    if i < j {
      SkipAccepted(src, i + 1, j);
    }
  }

  /** A step over white space, a comment, a word or a number reports
      nothing and skips no unrecognised index. */
  lemma StepSkips(src: string, i: nat, line: int)
    requires i < |src| && src[i] != '\0'
    requires IsSpace(src[i]) || IsWordChar(src[i]) || (src[i] == '/' && At(src, i + 1) == '/')
    ensures var s := ScanStep(src, i, line);
      Unexpected(s.emitted) == [] && UnrecognisedFrom(src, i) == UnrecognisedFrom(src, s.next)
  {
    var c := src[i];
    if IsSpace(c) {
      assert Recognized(c);
    } else if IsAlpha(c) || c == '_' {
      SkipAccepted(src, i, WordEnd(src, i));
    } else if IsDigit(c) {
      SkipAccepted(src, i, DigitsEnd(src, i));
    }
  }

  /** A step over an operator or a delimiter reports nothing and skips no
      unrecognised index. */
  lemma StepSymbol(src: string, i: nat, line: int)
    requires i < |src| && src[i] != '\0' && Recognized(src[i])
    requires !IsSpace(src[i]) && !IsWordChar(src[i]) && !(src[i] == '/' && At(src, i + 1) == '/')
    ensures var s := ScanStep(src, i, line);
      Unexpected(s.emitted) == [] && UnrecognisedFrom(src, i) == UnrecognisedFrom(src, s.next)
  {
    var (kind, len) := Punctuation(src[i], At(src, i + 1));
    PunctuationStep(src, i, line);
    PunctuationKnown(src[i], At(src, i + 1));
    assert len == 2 ==> i + 1 < |src|;
    hide ScanStep, UnrecognisedFrom, Punctuation, Recognized;
    SkipAccepted(src, i, i + len);
  }

  /** A recognised symbol has a kind of its own, and takes a second
      character only when that is `=`. */
  lemma PunctuationKnown(c: char, next: char)
    requires Recognized(c) && c != '\0' && !IsSpace(c) && !IsWordChar(c)
    ensures var (kind, len) := Punctuation(c, next);
      kind != Unknown && (len == 1 || (len == 2 && next == '='))
  {
  }

  /** A step over an unrecognised character reports it, on its line. */
  lemma StepUnknown(src: string, i: nat, line: int)
    requires i < |src| && src[i] != '\0' && !Recognized(src[i])
    ensures var s := ScanStep(src, i, line);
      && s.next == i + 1
      && Unexpected(s.emitted) == [BadChar(src[i], line)]
      && UnrecognisedFrom(src, i) == [i] + UnrecognisedFrom(src, i + 1)
  {
    assert src[i..i + 1] == [src[i]];
  }

  /** One scanning step reports its unrecognised character, if it met one,
      and moves past accepted text otherwise. */
  lemma StepUnrecognised(src: string, i: nat, line: int)
    requires i < |src| && src[i] != '\0' && line == LineAt(src, i)
    ensures var s := ScanStep(src, i, line);
      Reports(src, UnrecognisedFrom(src, i)) == Unexpected(s.emitted) + Reports(src, UnrecognisedFrom(src, s.next))
  {
    hide *;
    var c := src[i];
    var s := ScanStep(src, i, line);
    if IsSpace(c) || IsWordChar(c) || (c == '/' && At(src, i + 1) == '/') {
      StepSkips(src, i, line);
      assert [] + Reports(src, UnrecognisedFrom(src, s.next)) == Reports(src, UnrecognisedFrom(src, s.next));
    } else if Recognized(c) {
      StepSymbol(src, i, line);
      assert [] + Reports(src, UnrecognisedFrom(src, s.next)) == Reports(src, UnrecognisedFrom(src, s.next));
    } else {
      StepUnknown(src, i, line);
      ReportsCons(src, i, UnrecognisedFrom(src, i + 1));
    }
  }

  /** The report of one more index in front. */
  lemma ReportsCons(src: string, i: nat, ps: seq<nat>)
    requires i < |src| && forall k | 0 <= k < |ps| :: ps[k] < |src|
    ensures Reports(src, [i] + ps) == [BadChar(src[i], LineAt(src, i))] + Reports(src, ps)
  {
    hide *;
    assert ([i] + ps)[1..] == ps;
  }

  lemma UnexpectedAppend(a: seq<Lexed>, b: seq<Lexed>)
    requires |a| <= 1
    ensures Unexpected(a + b) == Unexpected(a) + Unexpected(b)
  {
    if |a| == 1 {
      assert (a + b)[1..] == b;
      assert a[1..] == [];
    } else {
      assert a + b == b;
    }
  }

  /** The unrecognised characters of a scan from i, with their lines. */
  lemma {:induction false} ScanUnrecognised(src: string, i: nat, line: int)
    requires i <= |src| && line == LineAt(src, i)
    ensures Unexpected(Scan(src, i, line)) == Reports(src, UnrecognisedFrom(src, i))
    decreases |src| - i
  {
    if At(src, i) != '\0' {
      var s := ScanStep(src, i, line);
      var rest := Scan(src, s.next, s.line);
      StepLines(src, i, line);
      ScanUnrecognised(src, s.next, s.line);
      StepUnrecognised(src, i, line);
      assert Scan(src, i, line) == s.emitted + rest;
      UnexpectedAppend(s.emitted, rest);
    } else {
      var ls := Scan(src, i, line);
      assert ls == [ls[0]] && ls[0].token.kind == Eof;
      assert ls[1..] == [];
    }
  }

  /** Tokenize fails exactly when the text, before its terminator and
      outside comments, holds a character no rule accepts; it then reports
      the first 128 of those characters, in text order, each with its
      line. */
  lemma TokenizeReports(src: string)
    ensures var ps := UnrecognisedFrom(src, 0);
      && (forall p | p in ps :: forall m | 0 <= m < p :: src[m] != '\0')
      && (Tokenize(src).Err? <==> |ps| > 0)
      && (Tokenize(src).Err? ==>
            var all := Reports(src, ps);
            Tokenize(src).error.chars == if |all| <= MaxUnexpected then all else all[..MaxUnexpected])
  {
    assert src[..0] == [];
    ScanUnrecognised(src, 0, 1);
    BeforeTerminator(src, 0);
  }
}
