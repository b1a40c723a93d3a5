/** Decimal numerals and Python's ordering of strings. */
module Text {

  predicate IsDigit(c: char) { '0' <= c <= '9' }

  predicate AllDigits(s: string) { forall i :: 0 <= i < |s| ==> IsDigit(s[i]) }

  function DigitChar(k: nat): (c: char)
    requires k < 10
    ensures IsDigit(c)
  {
    ('0' as int + k) as char
  }

  function DigitValue(c: char): (k: nat)
    requires IsDigit(c)
    ensures k < 10 && DigitChar(k) == c
  {
    c as int - '0' as int
  }

  function Pow10(n: nat): (r: nat)
    ensures r >= 1
  {
    if n == 0 then 1 else 10 * Pow10(n - 1)
  }

  /** `int(s)` for a string of ASCII digits (leading zeros allowed). */
  function DigitsValue(s: string): (v: nat)
    requires AllDigits(s)
    ensures v < Pow10(|s|)
    decreases |s|
  {
    if s == [] then 0 else 10 * DigitsValue(s[..|s| - 1]) + DigitValue(s[|s| - 1])
  }

  /** `n` written in exactly `width` decimal digits, zero-padded (strftime's `%Y`, `%m`, `%d`). */
  function Pad(n: nat, width: nat): (s: string)
    requires n < Pow10(width)
    ensures |s| == width && AllDigits(s)
    ensures DigitsValue(s) == n
  {
    if width == 0 then "" else
      var init := Pad(n / 10, width - 1);
      var s := init + [DigitChar(n % 10)];
      assert s[..|s| - 1] == init;
      s
  }

  /** `str(n)`: the shortest decimal numeral of `n`. */
  function DecimalString(n: nat): string
    decreases n
  {
    if n < 10 then [DigitChar(n)] else DecimalString(n / 10) + [DigitChar(n % 10)]
  }

  /** `str(n)` is a numeral of value `n` with no leading zero. */
  lemma {:induction false} DecimalStringSpec(n: nat)
    ensures var s := DecimalString(n); |s| >= 1 && AllDigits(s) && DigitsValue(s) == n
    ensures var s := DecimalString(n); s[0] == '0' ==> s == "0"
    decreases n
  {
    if n >= 10 {
      DecimalStringSpec(n / 10);
      var init := DecimalString(n / 10);
      var s := init + [DigitChar(n % 10)];
      assert s[..|s| - 1] == init;
      assert s[0] == init[0];
    }
  }

  lemma PadInjective(n: nat, m: nat, width: nat)
    requires n < Pow10(width) && m < Pow10(width)
    ensures Pad(n, width) == Pad(m, width) <==> n == m
  {
  }

  /** Python's `a < b` on `str`: the first differing code point decides, and a proper prefix is smaller. */
  predicate LexLess(a: string, b: string)
    decreases |a|
  {
    if |a| == 0 then |b| > 0
    else if |b| == 0 then false
    else if a[0] != b[0] then a[0] < b[0]
    else LexLess(a[1..], b[1..])
  }

  /** Python's `a <= b` on `str`. */
  predicate LexLessEq(a: string, b: string) { a == b || LexLess(a, b) }

  lemma {:induction false} LexLessIrreflexive(a: string)
    ensures !LexLess(a, a)
    decreases |a|
  {
    if |a| > 0 {
      LexLessIrreflexive(a[1..]);
    }
  }

  /** Comparing two strings that start with equally long parts: the first parts decide unless they are equal. */
  lemma {:induction false} LexLessConcat(a: string, b: string, c: string, d: string)
    requires |a| == |c|
    ensures LexLess(a + b, c + d) <==> LexLess(a, c) || (a == c && LexLess(b, d))
    decreases |a|
  {
    if |a| == 0 {
      assert a + b == b && c + d == d;
      assert a == c;
    } else {
      assert (a + b)[0] == a[0] && (c + d)[0] == c[0];
      assert (a + b)[1..] == a[1..] + b && (c + d)[1..] == c[1..] + d;
      LexLessConcat(a[1..], b, c[1..], d);
      if a[0] == c[0] {
        assert a == c <==> a[1..] == c[1..] by {
          if a[1..] == c[1..] {
            assert a == [a[0]] + a[1..] && c == [c[0]] + c[1..];
          }
        }
      } else {
        assert a != c;
      }
    }
  }

  /** The last digit of a padded numeral is the value's last decimal digit. */
  lemma PadSnoc(n: nat, width: nat)
    requires width > 0 && n < Pow10(width)
    ensures n / 10 < Pow10(width - 1)
    ensures Pad(n, width) == Pad(n / 10, width - 1) + [DigitChar(n % 10)]
  {
  }

  lemma DigitOrder(i: nat, j: nat)
    requires i < 10 && j < 10
    ensures LexLess([DigitChar(i)], [DigitChar(j)]) <==> i < j
  {
    assert [DigitChar(i)][1..] == [] && [DigitChar(j)][1..] == [];
  }

  /** For equally wide zero-padded numerals, string order is numeric order. */
  lemma {:induction false} PadOrder(n: nat, m: nat, width: nat)
    requires n < Pow10(width) && m < Pow10(width)
    ensures LexLess(Pad(n, width), Pad(m, width)) <==> n < m
    decreases width
  {
    if width > 0 {
      PadSnoc(n, width);
      PadSnoc(m, width);
      var a, c := Pad(n / 10, width - 1), Pad(m / 10, width - 1);
      LexLessConcat(a, [DigitChar(n % 10)], c, [DigitChar(m % 10)]);
      PadOrder(n / 10, m / 10, width - 1);
      PadInjective(n / 10, m / 10, width - 1);
      DigitOrder(n % 10, m % 10);
      DecimalOrder(n, m);
    }
  }

  lemma DecimalOrder(n: nat, m: nat)
    ensures n < m <==> n / 10 < m / 10 || (n / 10 == m / 10 && n % 10 < m % 10)
  {
  }
}
