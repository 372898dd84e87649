/** Machine integer limits, decimal numerals, fixed-width numerals and the bytewise string order that
    Go's `<` on strings, `sort.Slice` over file names and Python's string
    comparison all use. */
module Text {

  const MAX_INT64: int := 0x7fff_ffff_ffff_ffff
  const MAX_UINT32: int := 0xffff_ffff

  datatype Option<+T> = None | Some(value: T)

  function Min(a: int, b: int): int {
    if a < b then a else b
  }

  /** Ten to the power `k`. */
  function Pow10(k: nat): (p: nat)
    ensures p >= 1
  {
    if k == 0 then 1 else 10 * Pow10(k - 1)
  }

  predicate IsDigit(c: char) {
    '0' <= c <= '9'
  }

  predicate AllDigits(s: string) {
    forall i :: 0 <= i < |s| ==> IsDigit(s[i])
  }

  function DigitChar(d: nat): (c: char)
    requires d < 10
    ensures IsDigit(c) && DigitValue(c) == d
  {
    ('0' as int + d) as char
  }

  function DigitValue(c: char): (d: nat)
    requires IsDigit(c)
    ensures d < 10
  {
    c as int - '0' as int
  }

  /** The number a string of digits denotes; leading zeros allowed. */
  function Value(s: string): nat
    requires AllDigits(s)
  {
    if s == "" then 0 else 10 * Value(s[..|s| - 1]) + DigitValue(s[|s| - 1])
  }

  /** The shortest decimal numeral of `n` (`%d`). */
  function Digits(n: nat): (s: string)
    ensures s != "" && AllDigits(s)
    ensures n > 0 ==> s[0] != '0'
  {
    if n < 10 then [DigitChar(n)] else Digits(n / 10) + [DigitChar(n % 10)]
  }

  /** A shortest numeral reads back as the number it was printed from. */
  lemma {:induction false} ValueOfDigits(n: nat)
    ensures Value(Digits(n)) == n
  {
    if n >= 10 {
      ValueOfDigits(n / 10);
      var s := Digits(n);
      assert s[..|s| - 1] == Digits(n / 10);
    } else {
      assert Digits(n)[..0] == "";
    }
  }

  /** Numbers below ten to the `k` need at most `k` digits. */
  lemma {:induction false} DigitsLength(n: nat, k: nat)
    requires k >= 1
    requires n < Pow10(k)
    ensures 1 <= |Digits(n)| <= k
  {
    if n >= 10 {
      DigitsLength(n / 10, k - 1);
    }
  }

  /** Different numerals without leading zeros denote different numbers. */
  lemma {:induction false} NumeralInjective(s: string, t: string)
    requires AllDigits(s) && AllDigits(t) && s != "" && t != ""
    requires |s| > 1 ==> s[0] != '0'
    requires |t| > 1 ==> t[0] != '0'
    requires Value(s) == Value(t)
    ensures s == t
  {
    NumeralCanonical(s);
    NumeralCanonical(t);
  }

  /** A numeral without leading zeros is the shortest one of its value. */
  lemma {:induction false} NumeralCanonical(s: string)
    requires AllDigits(s) && s != ""
    requires |s| > 1 ==> s[0] != '0'
    ensures s == Digits(Value(s))
    ensures s[0] != '0' ==> Value(s) > 0
  {
    var init, last := s[..|s| - 1], s[|s| - 1];
    assert s == init + [last];
    if init == "" {
      assert Value(init) == 0;
    } else {
      NumeralCanonical(init);
      assert Value(init) > 0;
      var v := Value(s);
      assert v / 10 == Value(init) && v % 10 == DigitValue(last);
    }
  }

  /** The last `w` decimal digits of `n`, zero padded (`%0wd` when `n` fits). */
  function Fixed(n: nat, w: nat): (s: string)
    ensures |s| == w && AllDigits(s)
  {
    if w == 0 then "" else Fixed(n / 10, w - 1) + [DigitChar(n % 10)]
  }

  function Zeros(k: nat): (s: string)
    ensures |s| == k
  {
    if k == 0 then "" else Zeros(k - 1) + ['0']
  }

  /** When the number fits, the fixed-width numeral is its shortest numeral
      with zeros in front. */
  lemma {:induction false} FixedIsPaddedDigits(n: nat, w: nat)
    requires w >= 1
    requires n < Pow10(w)
    ensures |Digits(n)| <= w
    ensures Fixed(n, w) == Zeros(w - |Digits(n)|) + Digits(n)
  {
    DigitsLength(n, w);
    if n >= 10 {
      FixedIsPaddedDigits(n / 10, w - 1);
      assert Zeros(w - |Digits(n)|) + Digits(n)
          == (Zeros(w - 1 - |Digits(n / 10)|) + Digits(n / 10)) + [DigitChar(n % 10)];
    } else {
      FixedZero(w - 1);
    }
  }

  lemma {:induction false} FixedZero(w: nat)
    ensures Fixed(0, w) == Zeros(w)
  {
    if w > 0 { FixedZero(w - 1); }
  }

  /** Bytewise lexicographic order. */
  predicate Less(a: string, b: string) {
    b != "" && (a == "" || a[0] < b[0] || (a[0] == b[0] && Less(a[1..], b[1..])))
  }

  lemma {:induction false} LessIrreflexive(a: string)
    ensures !Less(a, a)
  {
    if a != "" { LessIrreflexive(a[1..]); }
  }

  lemma {:induction false} LessTransitive(a: string, b: string, c: string)
    requires Less(a, b) && Less(b, c)
    ensures Less(a, c)
  {
    if a != "" && a[0] == b[0] && b[0] == c[0] {
      LessTransitive(a[1..], b[1..], c[1..]);
    }
  }

  lemma {:induction false} LessTotal(a: string, b: string)
    ensures Less(a, b) || a == b || Less(b, a)
  {
    if a != "" && b != "" && a[0] == b[0] {
      LessTotal(a[1..], b[1..]);
      assert a == [a[0]] + a[1..] && b == [b[0]] + b[1..];
    }
  }

  lemma LessAsymmetric(a: string, b: string)
    requires Less(a, b)
    ensures !Less(b, a)
  {
    if Less(b, a) {
      LessTransitive(a, b, a);
      LessIrreflexive(a);
    }
  }

  /** Strings that start with equally long blocks compare block first. */
  lemma {:induction false} LessBlocks(a: string, b: string, x: string, y: string)
    requires |a| == |b|
    ensures Less(a + x, b + y) <==> Less(a, b) || (a == b && Less(x, y))
  {
    if a == "" {
      assert a + x == x && b + y == y;
    } else {
      assert (a + x)[1..] == a[1..] + x && (b + y)[1..] == b[1..] + y;
      LessBlocks(a[1..], b[1..], x, y);
      assert a == [a[0]] + a[1..] && b == [b[0]] + b[1..];
    }
  }

  /** On fixed-width numerals the string order is the numeric order. */
  lemma {:induction false} FixedOrder(m: nat, n: nat, w: nat)
    requires m < Pow10(w) && n < Pow10(w)
    ensures Less(Fixed(m, w), Fixed(n, w)) <==> m < n
    ensures Fixed(m, w) == Fixed(n, w) <==> m == n
  {
    if w > 0 {
      FixedOrder(m / 10, n / 10, w - 1);
      LessBlocks(Fixed(m / 10, w - 1), Fixed(n / 10, w - 1), [DigitChar(m % 10)], [DigitChar(n % 10)]);
      assert Fixed(m, w)[..w - 1] == Fixed(m / 10, w - 1);
      assert Fixed(n, w)[..w - 1] == Fixed(n / 10, w - 1);
      assert Fixed(m, w)[w - 1] == DigitChar(m % 10) && Fixed(n, w)[w - 1] == DigitChar(n % 10);
      var c, d := DigitChar(m % 10), DigitChar(n % 10);
      assert Less([c], [d]) <==> c < d;
    }
  }

  /** Where `c` first stands in `s`, or the end. */
  function UpTo(s: string, c: char): (n: nat)
    ensures n <= |s| && c !in s[..n] && (n < |s| ==> s[n] == c)
  {
    if s == "" || s[0] == c then 0
    else
      var n := UpTo(s[1..], c);
      assert s[..n + 1] == [s[0]] + s[1..][..n];
      n + 1
  }

  // White space as Go's strings.TrimSpace knows it.

  predicate IsSpace(c: char) {
    '\t' <= c <= '\r' || c == ' ' || c == '\U{85}' || c == '\U{A0}' || c == '\U{1680}'
    || '\U{2000}' <= c <= '\U{200A}' || c == '\U{2028}' || c == '\U{2029}' || c == '\U{202F}'
    || c == '\U{205F}' || c == '\U{3000}'
  }

  function TrimLeft(s: string): string {
    if s != "" && IsSpace(s[0]) then TrimLeft(s[1..]) else s
  }

  function TrimRight(s: string): string {
    if s != "" && IsSpace(s[|s| - 1]) then TrimRight(s[..|s| - 1]) else s
  }

  function Trim(s: string): string {
    TrimRight(TrimLeft(s))
  }

  predicate AllSpaces(s: string) {
    forall c :: c in s ==> IsSpace(c)
  }

  lemma {:induction false} TrimLeftParts(s: string) returns (before: string)
    ensures s == before + TrimLeft(s) && AllSpaces(before)
    ensures TrimLeft(s) != "" ==> !IsSpace(TrimLeft(s)[0])
  {
    before := "";
    if s != "" && IsSpace(s[0]) {
      before := TrimLeftParts(s[1..]);
      before := [s[0]] + before;
    }
  }

  lemma {:induction false} TrimRightParts(s: string) returns (after: string)
    ensures s == TrimRight(s) + after && AllSpaces(after)
    ensures TrimRight(s) != "" ==> !IsSpace(TrimRight(s)[|TrimRight(s)| - 1]) && TrimRight(s)[0] == s[0]
  {
    after := "";
    if s != "" && IsSpace(s[|s| - 1]) {
      after := TrimRightParts(s[..|s| - 1]);
      after := after + [s[|s| - 1]];
    }
  }

  /** Trimming takes away the white space at both ends and nothing else. */
  lemma TrimParts(s: string) returns (before: string, after: string)
    ensures s == before + Trim(s) + after && AllSpaces(before) && AllSpaces(after)
    ensures Trim(s) != "" ==> !IsSpace(Trim(s)[0]) && !IsSpace(Trim(s)[|Trim(s)| - 1])
  {
    hide TrimLeft, TrimRight, IsSpace;
    before := TrimLeftParts(s);
    after := TrimRightParts(TrimLeft(s));
  }
}
