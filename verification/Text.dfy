/** Decimal text: the digit strings that timestamps and idempotency keys are made of. */
module Text {

  const DIGITS := "0123456789"
  const CAPITALS := "ABCDEFGHIJKLMNOPQRSTUVWXYZ"
  const SMALL := "abcdefghijklmnopqrstuvwxyz"

  predicate IsDigit(c: char) {
    '0' <= c <= '9'
  }

  predicate AllDigits(s: string) {
    forall i :: 0 <= i < |s| ==> IsDigit(s[i])
  }

  function DigitChar(d: nat): (c: char)
    requires d < 10
    ensures IsDigit(c) && DigitValue(c) == d
  {
    '0' + d as char
  }

  function DigitValue(c: char): (d: nat)
    requires IsDigit(c)
    ensures d < 10
  {
    c as int - '0' as int
  }

  /** The number a digit string denotes; the empty string denotes zero. */
  function NumberOf(s: string): nat
    requires AllDigits(s)
  {
    if s == [] then 0 else NumberOf(s[..|s| - 1]) * 10 + DigitValue(s[|s| - 1])
  }

  function Pow10(w: nat): (p: nat)
    ensures p > 0
  {
    if w == 0 then 1 else 10 * Pow10(w - 1)
  }

  /** The `w` least significant digits of `n`. */
  function FixedWidth(n: nat, w: nat): (s: string)
    ensures |s| == w && AllDigits(s)
  {
    if w == 0 then "" else FixedWidth(n / 10, w - 1) + [DigitChar(n % 10)]
  }

  /** The shortest decimal numeral of `n`, as `toString()` prints it. */
  function Decimal(n: nat): (s: string)
    ensures |s| > 0 && AllDigits(s)
  {
    if n < 10 then [DigitChar(n)] else Decimal(n / 10) + [DigitChar(n % 10)]
  }

  function SignedDecimal(v: int): string {
    if v < 0 then "-" + Decimal(-v) else Decimal(v)
  }

  function Repeat(c: char, n: nat): (s: string)
    ensures |s| == n && forall i :: 0 <= i < n ==> s[i] == c
  {
    seq(n, _ => c)
  }

  function PadStart(s: string, w: nat, fill: char): (r: string)
    ensures |r| == if |s| < w then w else |s|
  {
    if |s| < w then Repeat(fill, w - |s|) + s else s
  }

  function PadEnd(s: string, w: nat, fill: char): (r: string)
    ensures |r| == if |s| < w then w else |s|
  {
    if |s| < w then s + Repeat(fill, w - |s|) else s
  }

  lemma {:induction false} NumberOfFixedWidth(n: nat, w: nat)
    requires n < Pow10(w)
    ensures NumberOf(FixedWidth(n, w)) == n
  {
    if w > 0 {
      NumberOfFixedWidth(n / 10, w - 1);
      assert FixedWidth(n, w)[..w - 1] == FixedWidth(n / 10, w - 1);
    }
  }

  lemma {:induction false} FixedWidthOfNumber(s: string)
    requires AllDigits(s)
    ensures NumberOf(s) < Pow10(|s|) && FixedWidth(NumberOf(s), |s|) == s
  {
    if s != [] {
      var init := s[..|s| - 1];
      FixedWidthOfNumber(init);
      assert s == init + [s[|s| - 1]];
    }
  }

  lemma {:induction false} DecimalIsFixedWidth(n: nat)
    ensures FixedWidth(n, |Decimal(n)|) == Decimal(n)
    ensures n < Pow10(|Decimal(n)|)
  {
    if n >= 10 {
      DecimalIsFixedWidth(n / 10);
    } else {
      assert FixedWidth(n / 10, 0) == "";
      assert Pow10(1) == 10 * Pow10(0);
    }
  }

  /** Two numbers with the same numeral are the same number. */
  lemma DecimalInjective(m: nat, n: nat)
    requires Decimal(m) == Decimal(n)
    ensures m == n
  {
    DecimalIsFixedWidth(m);
    DecimalIsFixedWidth(n);
    NumberOfFixedWidth(m, |Decimal(m)|);
    NumberOfFixedWidth(n, |Decimal(n)|);
  }

  /** Zero-padding a numeral on the left is printing it at fixed width. */
  lemma {:induction false} PadStartIsFixedWidth(n: nat, w: nat)
    requires w > 0 && n < Pow10(w)
    ensures PadStart(Decimal(n), w, '0') == FixedWidth(n, w)
    ensures |Decimal(n)| <= w
  {
    if n < 10 {
      FixedWidthZero(w - 1);
      assert FixedWidth(n, w) == FixedWidth(0, w - 1) + [DigitChar(n)];
    } else {
      assert w > 1 by { assert Pow10(1) == 10 * Pow10(0); }
      PadStartIsFixedWidth(n / 10, w - 1);
    }
  }

  lemma {:induction false} FixedWidthZero(w: nat)
    ensures FixedWidth(0, w) == Repeat('0', w)
  {
    if w > 0 {
      FixedWidthZero(w - 1);
      assert Repeat('0', w) == Repeat('0', w - 1) + ['0'];
    }
  }

  /** Splitting a digit string splits its value at the matching power of ten. */
  lemma {:induction false} NumberOfConcat(a: string, b: string)
    requires AllDigits(a) && AllDigits(b)
    ensures NumberOf(a + b) == NumberOf(a) * Pow10(|b|) + NumberOf(b)
  {
    if b == [] {
      assert a + b == a;
    } else {
      var init := b[..|b| - 1];
      NumberOfConcat(a, init);
      assert (a + b)[..|a + b| - 1] == a + init;
      assert Pow10(|b|) == 10 * Pow10(|init|);
      assert NumberOf(a) * Pow10(|b|) == NumberOf(a) * Pow10(|init|) * 10;
    }
  }

  // ----- Case and endings, for ASCII

  function ToLower(s: string): (r: string)
    ensures |r| == |s|
  {
    seq(|s|, i requires 0 <= i < |s| => if 'A' <= s[i] <= 'Z' then (s[i] as int + 32) as char else s[i])
  }

  predicate EndsWith(s: string, suffix: string) {
    |suffix| <= |s| && s[|s| - |suffix|..] == suffix
  }

  // ----- Digits and letters by their places

  lemma DigitExact(d: nat)
    requires d < 10
    ensures DigitChar(d) == DIGITS[d] && DigitValue(DIGITS[d]) == d
  {
  }

  lemma DigitListed(c: char)
    ensures IsDigit(c) <==> c in DIGITS
  {
    if IsDigit(c) { assert DIGITS[c as int - '0' as int] == c; }
  }

  lemma CapitalListed(c: char)
    ensures 'A' <= c <= 'Z' <==> c in CAPITALS
  {
    if 'A' <= c <= 'Z' { assert CAPITALS[c as int - 'A' as int] == c; }
  }

  lemma SmallListed(c: char)
    ensures 'a' <= c <= 'z' <==> c in SMALL
  {
    if 'a' <= c <= 'z' { assert SMALL[c as int - 'a' as int] == c; }
  }

  /** A capital becomes the small letter at its place in the alphabet; everything else stays. */
  lemma ToLowerExact(c: char)
    ensures forall k :: 0 <= k < |CAPITALS| == |SMALL| && c == CAPITALS[k] ==> ToLower([c]) == [SMALL[k]]
    ensures c !in CAPITALS ==> ToLower([c]) == [c]
  {
    hide CAPITALS, SMALL;
    CapitalListed(c);
    AlphabetCodes();
  }

  lemma AlphabetCodes()
    ensures |SMALL| == 26 && |CAPITALS| == 26
    ensures forall k :: 0 <= k < 26 ==> SMALL[k] as int == 'a' as int + k
    ensures forall k :: 0 <= k < 26 ==> CAPITALS[k] as int == 'A' as int + k
  {
  }
}
