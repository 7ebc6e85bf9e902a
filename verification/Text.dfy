/** UTF-16 sizes (section 2.1 of RFC 2781) and decimal text.
    A Dafny `char` is a Unicode scalar value, so a `string` is what Go's
    `range` over a valid UTF-8 string yields. */
module Text {
  function RuneUnits(r: char): (n: nat)
    ensures 1 <= n <= 2
  {
    if r as int > 0xFFFF then 2 else 1
  }

  function Units(s: string): nat {
    if s == [] then 0 else RuneUnits(s[0]) + Units(s[1..])
  }

  lemma Associative(a: string, b: string, c: string)
    ensures (a + b) + c == a + (b + c)
  {
  }

  lemma {:induction false} UnitsConcat(a: string, b: string)
    ensures Units(a + b) == Units(a) + Units(b)
  {
    if a == [] {
      assert a + b == b;
    } else {
      UnitsConcat(a[1..], b);
      assert (a + b)[1..] == a[1..] + b;
    }
  }

  /** The size lies between one and two units per character. */
  lemma {:induction false} UnitsBounds(s: string)
    ensures |s| <= Units(s) <= 2 * |s|
  {
    if s != [] {
      UnitsBounds(s[1..]);
    }
  }

  predicate IsDigit(c: char) {
    '0' <= c <= '9'
  }

  function DigitValue(c: char): (n: nat)
    requires IsDigit(c)
    ensures n < 10
  {
    c as int - '0' as int
  }

  function Digit(n: nat): (c: char)
    requires n < 10
    ensures IsDigit(c) && DigitValue(c) == n
  {
    '0' + n as char
  }

  function Decimal(n: nat): string {
    if n < 10 then [Digit(n)] else Decimal(n / 10) + [Digit(n % 10)]
  }

  predicate AllDigits(s: string) {
    forall i :: 0 <= i < |s| ==> IsDigit(s[i])
  }

  /** Reads digits after a number already read, most significant first. */
  function ReadDigits(soFar: nat, s: string): nat
    requires AllDigits(s)
    decreases |s|
  {
    if s == [] then soFar else ReadDigits(10 * soFar + DigitValue(s[0]), s[1..])
  }

  lemma {:induction false} ReadDigitsSnoc(soFar: nat, s: string, c: char)
    requires AllDigits(s) && IsDigit(c)
    ensures AllDigits(s + [c])
    ensures ReadDigits(soFar, s + [c]) == 10 * ReadDigits(soFar, s) + DigitValue(c)
    decreases |s|
  {
    assert AllDigits(s + [c]);
    if s == [] {
      assert s + [c] == [c];
      assert ReadDigits(10 * soFar + DigitValue(c), []) == 10 * soFar + DigitValue(c);
    } else {
      ReadDigitsSnoc(10 * soFar + DigitValue(s[0]), s[1..], c);
      assert (s + [c])[1..] == s[1..] + [c];
    }
  }

  /** Decimal text is read back to the number it was printed from. */
  lemma {:induction false} DecimalReadsBack(n: nat)
    ensures Decimal(n) != [] && AllDigits(Decimal(n)) && ReadDigits(0, Decimal(n)) == n
  {
    if n < 10 {
      assert Decimal(n) == [Digit(n)];
      assert ReadDigits(n, []) == n;
    } else {
      DecimalReadsBack(n / 10);
      ReadDigitsSnoc(0, Decimal(n / 10), Digit(n % 10));
    }
  }

  function Pow10(k: nat): (p: nat)
    ensures p >= 1
  {
    if k == 0 then 1 else 10 * Pow10(k - 1)
  }

  lemma {:induction false} DecimalLength(n: nat, k: nat)
    requires k >= 1 && n < Pow10(k)
    ensures 1 <= |Decimal(n)| <= k
  {
    if n >= 10 {
      assert Pow10(0) == 1;
      DecimalLength(n / 10, k - 1);
    }
  }
}
