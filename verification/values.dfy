/** Integer semantics the compiler, the VM and the interpreter share with
    C: `atoi` on literal text, division that truncates toward zero, and
    comparisons that yield 0 or 1. Integers are unbounded here; the C
    `int` overflow cases are not part of this model. */
module Values {

  predicate IsDigit(c: char) {
    '0' <= c <= '9'
  }

  /** The characters C's `isspace` accepts in the C locale. */
  predicate IsSpace(c: char) {
    c == ' ' || c == '\t' || c == '\n' || c == '\r' || c == 11 as char || c == 12 as char
  }

  predicate AllDigits(s: string) {
    forall k | 0 <= k < |s| :: IsDigit(s[k])
  }

  /** The value of a run of decimal digits, most significant first. */
  function DecimalValue(ds: string): int {
    if |ds| == 0 then 0
    else DecimalValue(ds[..|ds| - 1]) * 10 + (ds[|ds| - 1] as int - '0' as int)
  }

  /** The length of the digit run s starts with. */
  function DigitRun(s: string): (n: nat)
    ensures n <= |s|
  {
    if |s| > 0 && IsDigit(s[0]) then 1 + DigitRun(s[1..]) else 0
  }

  /** The run is a maximal prefix of digits. */
  lemma {:induction false} DigitRunMaximal(s: string)
    ensures AllDigits(s[..DigitRun(s)])
    ensures DigitRun(s) < |s| ==> !IsDigit(s[DigitRun(s)])
  {
    if |s| > 0 && IsDigit(s[0]) {
      DigitRunMaximal(s[1..]);
      var n := DigitRun(s);
      assert s[..n] == [s[0]] + s[1..][..n - 1];
    }
  }

  /** s without its leading white space. */
  function SkipSpaces(s: string): string {
    if |s| > 0 && IsSpace(s[0]) then SkipSpaces(s[1..]) else s
  }

  /** Skipping white space leaves a suffix that does not start with any. */
  lemma {:induction false} SkipSpacesSuffix(s: string)
    ensures |SkipSpaces(s)| <= |s| && SkipSpaces(s) == s[|s| - |SkipSpaces(s)|..]
    ensures |SkipSpaces(s)| > 0 ==> !IsSpace(SkipSpaces(s)[0])
  {
    if |s| > 0 && IsSpace(s[0]) {
      SkipSpacesSuffix(s[1..]);
    }
  }

  /** The value of the digits s starts with. */
  function LeadingValue(s: string): int {
    DecimalValue(s[..DigitRun(s)])
  }

  /** C's `atoi`: skip white space, read an optional sign, then the digits
      that follow; 0 when there are none. */
  function Atoi(s: string): int {
    var t := SkipSpaces(s);
    if |t| > 0 && t[0] == '-' then -LeadingValue(t[1..])
    else if |t| > 0 && t[0] == '+' then LeadingValue(t[1..])
    else LeadingValue(t)
  }

  // ---------------------------------------------------------------------
  // Reference printer: `printf("%d")`
  // ---------------------------------------------------------------------

  function Digit(d: nat): char
    requires d < 10
  {
    ('0' as int + d) as char
  }

  /** The decimal digits of n, without leading zeros. */
  function Digits(n: nat): (ds: string)
    ensures |ds| > 0 && AllDigits(ds)
    ensures |ds| > 1 ==> ds[0] != '0'
  {
    if n < 10 then [Digit(n)] else Digits(n / 10) + [Digit(n % 10)]
  }

  /** How `%d` prints an int. */
  function Format(x: int): (s: string)
    ensures |s| > 0
  {
    if x < 0 then ['-'] + Digits(-x) else Digits(x)
  }

  lemma {:induction false} DigitsValue(n: nat)
    ensures DecimalValue(Digits(n)) == n
  {
    if n >= 10 {
      var ds := Digits(n);
      assert ds[..|ds| - 1] == Digits(n / 10);
      DigitsValue(n / 10);
    }
  }

  /** A literal token's text is a digit run, which `atoi` reads whole. */
  lemma AtoiDigits(ds: string)
    requires AllDigits(ds)
    ensures Atoi(ds) == DecimalValue(ds)
  {
    if |ds| > 0 {
      assert !IsSpace(ds[0]) && ds[0] != '-' && ds[0] != '+';
    }
    WholeRun(ds);
    assert ds[..|ds|] == ds;
  }

  lemma {:induction false} WholeRun(ds: string)
    requires AllDigits(ds)
    ensures DigitRun(ds) == |ds|
  {
    if |ds| > 0 {
      WholeRun(ds[1..]);
    }
  }

  /** `atoi` reads back every value `%d` prints. */
  lemma AtoiFormat(x: int)
    ensures Atoi(Format(x)) == x
  {
    var s := Format(x);
    assert !IsSpace(s[0]);
    if x < 0 {
      var ds := Digits(-x);
      assert s[1..] == ds;
      WholeRun(ds);
      assert ds[..|ds|] == ds;
      DigitsValue(-x);
    } else {
      WholeRun(s);
      assert s[..|s|] == s;
      DigitsValue(x);
    }
  }

  // ---------------------------------------------------------------------
  // Arithmetic
  // ---------------------------------------------------------------------

  function Abs(x: int): int {
    if x < 0 then -x else x
  }

  /** C's `a / b`: the quotient of the magnitudes, negated when the signs
      differ. Dafny's own `/` is Euclidean and differs from it for negative
      operands. */
  function CDiv(a: int, b: int): int
    requires b != 0
  {
    if (a < 0) == (b < 0) then Abs(a) / Abs(b) else -(Abs(a) / Abs(b))
  }

  /** A truncated quotient: the remainder it leaves is smaller than the
      divisor and has the sign of the dividend. */
  predicate Truncates(a: int, b: int, q: int) {
    var r := a - q * b;
    -Abs(b) < r < Abs(b) && (a >= 0 ==> r >= 0) && (a <= 0 ==> r <= 0)
  }

  /** The C quotient truncates toward zero. */
  lemma CDivSpec(a: int, b: int)
    requires b != 0
    ensures Truncates(a, b, CDiv(a, b))
  {
    var n, m := Abs(a), Abs(b);
    var u, r := n / m, n % m;
    assert n == u * m + r && 0 <= r < m;
    var q := CDiv(a, b);
    assert q * b == if a < 0 then -(u * m) else u * m by {
      SignedProduct(a, b, u, q);
    }
  }

  /** The product of the signed quotient and the divisor, in terms of the
      unsigned quotient. */
  lemma SignedProduct(a: int, b: int, u: int, q: int)
    requires b != 0
    requires q == if (a < 0) == (b < 0) then u else -u
    ensures q * b == if a < 0 then -(u * Abs(b)) else u * Abs(b)
  {
    if b < 0 {
      NegateFactor(q, Abs(b));
      if a < 0 {
        NegateFactor(u, Abs(b));
      }
    } else if a < 0 {
      NegateFactor(u, b);
    }
  }

  lemma NegateFactor(x: int, y: int)
    ensures x * -y == -(x * y) && (-x) * y == -(x * y)
  {
  }

  /** The truncated quotient is the only one with those properties. */
  lemma CDivUnique(a: int, b: int, q: int)
    requires b != 0 && Truncates(a, b, q)
    ensures q == CDiv(a, b)
  {
    CDivSpec(a, b);
    OneTruncation(a, b, CDiv(a, b), q);
  }

  lemma OneTruncation(a: int, b: int, p: int, q: int)
    requires b != 0 && Truncates(a, b, p) && Truncates(a, b, q)
    ensures p == q
  {
    var r1, r2 := a - q * b, a - p * b;
    assert -Abs(b) < r1 - r2 < Abs(b);
    assert r1 - r2 == (p - q) * b by {
      assert p * b - q * b == (p - q) * b;
    }
    if p != q {
      ProductAtLeast(p - q, b);
    }
  }

  /** A nonzero multiple of b is at least as large as b. */
  lemma ProductAtLeast(d: int, b: int)
    requires d != 0
    ensures Abs(d * b) >= Abs(b)
  {
    var e, m := Abs(d), Abs(b);
    MultipleAtLeast(e, m);
    if d < 0 {
      NegateFactor(e, b);
    }
    if b < 0 {
      NegateFactor(d, m);
    }
  }

  /** Taking m at least once gives at least m. */
  lemma {:induction false} MultipleAtLeast(e: int, m: int)
    requires e >= 1 && m >= 0
    ensures e * m >= m
    decreases e
  {
    if e > 1 {
      MultipleAtLeast(e - 1, m);
      assert e * m == (e - 1) * m + m;
    }
  }

  /** C's value of a comparison. */
  function Truth(b: bool): (v: int)
    ensures v == 0 <==> !b
  {
    if b then 1 else 0
  }
}
