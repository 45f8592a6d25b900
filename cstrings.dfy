/** The few C library string routines the fan controller relies on, over
    NUL-free strings: `strncmp` against a literal prefix, `strstr`, `strrchr`,
    `atoi`, the `%d` conversion of `printf` and C's truncating division. */
module CStrings {
  import opened Wrappers

  /** `strncmp(s, prefix, strlen(prefix)) == 0`: `s` begins with `prefix`. */
  predicate StartsWith(s: string, prefix: string) {
    |prefix| <= |s| && s[..|prefix|] == prefix
  }

  /** `strstr(s, sub) != NULL`: `sub` occurs somewhere in `s`. */
  predicate Contains(s: string, sub: string)
    decreases |s|
  {
    StartsWith(s, sub) || (|s| > 0 && Contains(s[1..], sub))
  }

  /** An occurrence of a non-empty `sub` puts its first character into `s`. */
  lemma {:induction false} ContainsFirstChar(s: string, sub: string)
    requires |sub| > 0 && Contains(s, sub)
    ensures sub[0] in s
    decreases |s|
  {
    if StartsWith(s, sub) {
      assert s[0] == sub[0];
    } else {
      ContainsFirstChar(s[1..], sub);
      assert sub[0] in s[1..];
    }
  }

  /** `strrchr(s, c)`: the index of the last occurrence of `c`, if any. */
  function LastIndexOf(s: string, c: char): (r: Option<nat>)
    ensures r.Some? ==> r.value < |s| && s[r.value] == c
    ensures r.Some? ==> forall j :: r.value < j < |s| ==> s[j] != c
    ensures r.None? <==> c !in s
    decreases |s|
  {
    if |s| == 0 then None
    else if s[|s| - 1] == c then Some(|s| - 1)
    else
      var r := LastIndexOf(s[..|s| - 1], c);
      assert s == s[..|s| - 1] + [s[|s| - 1]];
      r
  }

  /** The characters `isspace` accepts in the C locale. */
  predicate IsSpace(c: char) {
    c == ' ' || ('\t' <= c && c <= '\r')
  }

  predicate IsDigit(c: char) {
    '0' <= c && c <= '9'
  }

  predicate IsDigits(d: string) {
    forall i :: 0 <= i < |d| ==> IsDigit(d[i])
  }

  function DigitValue(c: char): (v: nat)
    requires IsDigit(c)
    ensures v < 10
  {
    (c as int) - ('0' as int)
  }

  function DigitChar(v: nat): (c: char)
    requires v < 10
    ensures IsDigit(c) && DigitValue(c) == v
  {
    (('0' as int) + v) as char
  }

  /** `s` without its leading white space. */
  function SkipSpaces(s: string): (t: string)
    ensures |t| == 0 || !IsSpace(t[0])
  {
    if |s| > 0 && IsSpace(s[0]) then SkipSpaces(s[1..]) else s
  }

  /** The longest prefix of `s` made of decimal digits. */
  function DigitRun(s: string): (d: string)
    ensures IsDigits(d)
  {
    if |s| > 0 && IsDigit(s[0]) then [s[0]] + DigitRun(s[1..]) else []
  }

  /** `DigitRun` is a prefix of `s`, and it stops at the first non-digit. */
  lemma {:induction false} DigitRunShape(s: string)
    ensures StartsWith(s, DigitRun(s))
    ensures |DigitRun(s)| == |s| || !IsDigit(s[|DigitRun(s)|])
  {
    if |s| > 0 && IsDigit(s[0]) {
      var r := DigitRun(s[1..]);
      DigitRunShape(s[1..]);
      assert DigitRun(s) == [s[0]] + r;
      assert s[..|r| + 1] == [s[0]] + s[1..][..|r|];
      if |r| + 1 < |s| {
        assert s[|r| + 1] == s[1..][|r|];
      }
    }
  }

  /** The number a string of decimal digits denotes (most significant first). */
  function DecimalValue(d: string): nat
    requires IsDigits(d)
  {
    if |d| == 0 then 0
    else DecimalValue(d[..|d| - 1]) * 10 + DigitValue(d[|d| - 1])
  }

  /** The value of the digits `t` starts with. */
  function Magnitude(t: string): nat {
    DecimalValue(DigitRun(t))
  }

  /** `atoi`: skip white space, take an optional sign, then as many digits
      as follow; anything after them is ignored, and no digits give 0. */
  function Atoi(s: string): int {
    var t := SkipSpaces(s);
    if |t| > 0 && t[0] == '-' then -(Magnitude(t[1..]) as int)
    else if |t| > 0 && t[0] == '+' then Magnitude(t[1..])
    else Magnitude(t)
  }

  /** `atoi` is negative only after a minus sign, and text that does not
      start with a sign or a digit once white space is skipped gives 0. */
  lemma AtoiShape(s: string)
    ensures Atoi(s) < 0 ==> |SkipSpaces(s)| > 0 && SkipSpaces(s)[0] == '-'
    ensures var t := SkipSpaces(s); (|t| == 0 || !(t[0] == '-' || t[0] == '+' || IsDigit(t[0]))) ==> Atoi(s) == 0
  {
  }

  /** The digits `printf("%d")` produces for a non-negative number. */
  function Decimal(n: nat): (d: string)
    ensures |d| >= 1 && IsDigits(d)
  {
    if n < 10 then [DigitChar(n)] else Decimal(n / 10) + [DigitChar(n % 10)]
  }

  /** `printf("%d", n)`: a minus sign for negative numbers, then the digits. */
  function IntToDecimal(n: int): string {
    if n < 0 then "-" + Decimal(-n) else Decimal(n)
  }

  /** C's `a / b` for a positive divisor: the quotient truncated toward zero,
      so that the remainder takes the sign of `a` (Dafny's own `/` floors). */
  function CDiv(a: int, b: int): (q: int)
    requires b > 0
    ensures a >= 0 ==> 0 <= a - q * b < b
    ensures a < 0 ==> -b < a - q * b <= 0
  {
    if a >= 0 then a / b else -((-a) / b)
  }

  lemma {:induction false} DecimalValueOfDecimal(n: nat)
    ensures DecimalValue(Decimal(n)) == n
  {
    if n >= 10 {
      var d := Decimal(n / 10) + [DigitChar(n % 10)];
      assert d[..|d| - 1] == Decimal(n / 10);
      DecimalValueOfDecimal(n / 10);
    }
  }

  lemma {:induction false} DigitRunOfDigits(d: string, rest: string)
    requires IsDigits(d)
    requires |rest| == 0 || !IsDigit(rest[0])
    ensures DigitRun(d + rest) == d
  {
    if |d| > 0 {
      assert (d + rest)[1..] == d[1..] + rest;
      DigitRunOfDigits(d[1..], rest);
    } else {
      assert d + rest == rest;
    }
  }

  /** `atoi` of a digit string followed by non-digit text is its value. */
  lemma AtoiOfDigits(d: string, rest: string)
    requires |d| >= 1 && IsDigits(d)
    requires |rest| == 0 || !IsDigit(rest[0])
    ensures Atoi(d + rest) == DecimalValue(d)
  {
    var s := d + rest;
    assert s[0] == d[0];
    SkipSignOrDigit(s);
    DigitRunOfDigits(d, rest);
    assert Magnitude(s) == DecimalValue(d);
  }

  /** `atoi` reads back what `%d` writes, whatever non-digit text follows. */
  lemma AtoiOfDecimal(n: int, rest: string)
    requires |rest| == 0 || !IsDigit(rest[0])
    ensures Atoi(IntToDecimal(n) + rest) == n
  {
    if n < 0 {
      DecimalValueOfDecimal(-n);
      AtoiOfNegative(Decimal(-n), rest);
      ConcatAssoc(['-'], Decimal(-n), rest);
    } else {
      DecimalValueOfDecimal(n);
      AtoiOfDigits(Decimal(n), rest);
    }
  }

  /** `atoi` of a minus sign, digits and non-digit text is the negated value. */
  lemma AtoiOfNegative(d: string, rest: string)
    requires |d| >= 1 && IsDigits(d)
    requires |rest| == 0 || !IsDigit(rest[0])
    ensures Atoi(['-'] + (d + rest)) == -(DecimalValue(d) as int)
  {
    var t := d + rest;
    var s := ['-'] + t;
    SkipSignOrDigit(s);
    assert s[1..] == t;
    DigitRunOfDigits(d, rest);
    assert Magnitude(t) == DecimalValue(d);
  }

  lemma ConcatAssoc(a: string, b: string, c: string)
    ensures (a + b) + c == a + (b + c)
  {
  }

  /** White space skipping stops at once on a sign or a digit. */
  lemma SkipSignOrDigit(s: string)
    requires |s| > 0 && (s[0] == '-' || s[0] == '+' || IsDigit(s[0]))
    ensures SkipSpaces(s) == s
  {
    assert !IsSpace(s[0]);
  }

  /** Different numbers print differently. */
  lemma IntToDecimalInjective(a: int, b: int)
    requires IntToDecimal(a) == IntToDecimal(b)
    ensures a == b
  {
    AtoiOfDecimal(a, "");
    AtoiOfDecimal(b, "");
    assert IntToDecimal(a) + "" == IntToDecimal(a);
    assert IntToDecimal(b) + "" == IntToDecimal(b);
  }

  /** A number below 10^k prints in at most k digits. */
  lemma {:induction false} DecimalLength(n: nat, k: nat)
    requires k >= 1 && n < Pow10(k)
    ensures |Decimal(n)| <= k
    decreases k
  {
    if n >= 10 {
      assert n / 10 < Pow10(k - 1);
      DecimalLength(n / 10, k - 1);
    }
  }

  /** 10^k. */
  function Pow10(k: nat): (p: nat)
    ensures p >= 1
  {
    if k == 0 then 1 else 10 * Pow10(k - 1)
  }
}
