/**
  Decimal digit strings: the value they denote, the canonical rendering of a
  natural number, and comparison by magnitude carried out on the strings
  themselves (length first, then digit by digit), so that it stays exact for
  values of any width.
*/
module Decimal {
  import Strings

  predicate IsDigit(c: char) {
    '0' <= c <= '9'
  }

  predicate AllDigits(s: string) {
    forall i :: 0 <= i < |s| ==> IsDigit(s[i])
  }

  /** The numeric-field grammar `0|[1-9][0-9]*`, read against the whole string. */
  predicate IsCanonical(s: string) {
    s == "0" || (|s| >= 1 && '1' <= s[0] <= '9' && AllDigits(s))
  }

  function DigitValue(c: char): (d: nat)
    requires IsDigit(c)
    ensures d < 10
  {
    c as int - '0' as int
  }

  function DigitChar(d: nat): (c: char)
    requires d < 10
    ensures IsDigit(c) && DigitValue(c) == d
  {
    ('0' as int + d) as char
  }

  function Pow10(n: nat): (p: nat)
    ensures p >= 1
  {
    if n == 0 then 1 else 10 * Pow10(n - 1)
  }

  /** The natural number a digit string denotes. */
  function Value(s: string): nat
    requires AllDigits(s)
  {
    if s == [] then 0 else Value(s[..|s| - 1]) * 10 + DigitValue(s[|s| - 1])
  }

  /** The decimal rendering of `n`, as PHP's `(string)` cast of an int writes it. */
  function ToDecimal(n: nat): string
  {
    if n < 10 then [DigitChar(n)] else ToDecimal(n / 10) + [DigitChar(n % 10)]
  }

  /** Three-way comparison of two integers, PHP's `<=>` on ints. */
  function Cmp(x: int, y: int): int
  {
    if x < y then -1 else if x == y then 0 else 1
  }

  lemma DivModTen(q: nat, d: nat)
    requires d < 10
    ensures (q * 10 + d) / 10 == q && (q * 10 + d) % 10 == d
  {
  }

  lemma {:induction false} ValueBelowPower(s: string)
    requires AllDigits(s)
    ensures Value(s) < Pow10(|s|)
    decreases |s|
  {
    if s != [] {
      var p := s[..|s| - 1];
      ValueBelowPower(p);
      assert Value(s) == Value(p) * 10 + DigitValue(s[|s| - 1]);
      assert Value(p) * 10 <= (Pow10(|p|) - 1) * 10;
    }
  }

  lemma {:induction false} ValueAtLeastPower(s: string)
    requires AllDigits(s) && |s| >= 1 && s[0] != '0'
    ensures Value(s) >= Pow10(|s| - 1)
    decreases |s|
  {
    if |s| > 1 {
      var p := s[..|s| - 1];
      ValueAtLeastPower(p);
      assert Value(s) >= Value(p) * 10;
    }
  }

  /** The rendering is canonical and denotes the number it renders. */
  lemma {:induction false} ToDecimalCorrect(n: nat)
    ensures IsCanonical(ToDecimal(n)) && Value(ToDecimal(n)) == n
    decreases n
  {
    var s := ToDecimal(n);
    if n < 10 {
      assert Value(s) == Value([]) * 10 + DigitValue(s[0]);
    } else {
      var q := ToDecimal(n / 10);
      ToDecimalCorrect(n / 10);
      assert s[..|s| - 1] == q;
      assert q != "0";
      assert s[0] == q[0];
      assert Value(s) == (n / 10) * 10 + n % 10;
    }
  }

  /** A canonical string is the rendering of its own value. */
  lemma {:induction false} CanonicalIsRendering(s: string)
    requires IsCanonical(s)
    ensures ToDecimal(Value(s)) == s
    decreases |s|
  {
    if |s| == 1 {
      assert Value(s) == DigitValue(s[0]);
      assert [DigitChar(DigitValue(s[0]))] == s;
    } else {
      var p := s[..|s| - 1];
      var d := DigitValue(s[|s| - 1]);
      assert p[0] == s[0];
      assert IsCanonical(p);
      ValueAtLeastPower(p);
      CanonicalIsRendering(p);
      DivModTen(Value(p), d);
      assert Value(s) >= 10;
      assert DigitChar(d) == s[|s| - 1];
      assert s == p + [s[|s| - 1]];
    }
  }

  /** The grammar `0|[1-9][0-9]*` admits exactly the renderings of natural numbers. */
  lemma CanonicalIffRendering(s: string)
    ensures IsCanonical(s) <==> exists n: nat :: ToDecimal(n) == s
  {
    if IsCanonical(s) {
      CanonicalIsRendering(s);
    }
    if exists n: nat :: ToDecimal(n) == s {
      var n: nat :| ToDecimal(n) == s;
      ToDecimalCorrect(n);
    }
  }

  /** Distinct canonical strings denote distinct numbers. */
  lemma CanonicalInjective(a: string, b: string)
    requires IsCanonical(a) && IsCanonical(b) && Value(a) == Value(b)
    ensures a == b
  {
    CanonicalIsRendering(a);
    CanonicalIsRendering(b);
  }

  /**
    Magnitude comparison of two digit strings without converting them to a
    bounded integer: a longer canonical string is the larger number, and
    strings of the same length order like their digits.
  */
  function CompareDecimal(a: string, b: string): (r: int)
    requires AllDigits(a) && AllDigits(b)
  {
    if |a| < |b| then -1
    else if |a| > |b| then 1
    else Strings.LexCompare(a, b)
  }

  /** The leading digit carries the weight `10^(|s| - 1)`. */
  lemma {:induction false} ValueHead(s: string)
    requires AllDigits(s) && |s| >= 1
    ensures Value(s) == DigitValue(s[0]) * Pow10(|s| - 1) + Value(s[1..])
    decreases |s|
  {
    if |s| > 1 {
      var p := s[..|s| - 1];
      var last := DigitValue(s[|s| - 1]);
      ValueHead(p);
      assert s[1..][..|s| - 2] == p[1..];
      assert Value(s[1..]) == Value(p[1..]) * 10 + last;
      var h := DigitValue(s[0]);
      assert p[0] == s[0];
      assert Pow10(|s| - 1) == Pow10(|p| - 1) * 10;
      ShiftDigit(h, Pow10(|p| - 1), Value(p[1..]), last);
    }
  }

  /** One more digit at the end multiplies the head's weight and the tail's value by ten. */
  lemma ShiftDigit(h: nat, weight: nat, tail: nat, last: nat)
    ensures (h * weight + tail) * 10 + last == h * (weight * 10) + (tail * 10 + last)
  {
  }

  /** A smaller leading digit outweighs any tail below its weight. */
  lemma LeadingDigitDecides(ha: nat, hb: nat, p: nat, ra: nat, rb: nat)
    requires ha < hb && ra < p
    ensures ha * p + ra < hb * p + rb
  {
    assert (ha + 1) * p <= hb * p;
  }

  lemma {:induction false} Pow10Monotone(i: nat, j: nat)
    requires i <= j
    ensures Pow10(i) <= Pow10(j)
    decreases j
  {
    if i < j {
      Pow10Monotone(i, j - 1);
    }
  }

  /** On digit strings of one length, lexical order is numeric order. */
  lemma {:induction false} LexIsNumericOnEqualLength(a: string, b: string)
    requires AllDigits(a) && AllDigits(b) && |a| == |b|
    ensures Strings.LexCompare(a, b) == Cmp(Value(a), Value(b))
    decreases |a|
  {
    if a != [] {
      ValueHead(a);
      ValueHead(b);
      var p := Pow10(|a| - 1);
      var da, db := DigitValue(a[0]), DigitValue(b[0]);
      if a[0] == b[0] {
        LexIsNumericOnEqualLength(a[1..], b[1..]);
      } else if a[0] < b[0] {
        ValueBelowPower(a[1..]);
        LeadingDigitDecides(da, db, p, Value(a[1..]), Value(b[1..]));
      } else {
        ValueBelowPower(b[1..]);
        LeadingDigitDecides(db, da, p, Value(b[1..]), Value(a[1..]));
      }
    }
  }

  /** Comparing canonical strings agrees with comparing the numbers they denote. */
  lemma CompareDecimalIsNumeric(a: string, b: string)
    requires IsCanonical(a) && IsCanonical(b)
    ensures CompareDecimal(a, b) == Cmp(Value(a), Value(b))
  {
    if |a| < |b| {
      ValueBelowPower(a);
      ValueAtLeastPower(b);
      Pow10Monotone(|a|, |b| - 1);
    } else if |a| > |b| {
      ValueBelowPower(b);
      ValueAtLeastPower(a);
      Pow10Monotone(|b|, |a| - 1);
    } else {
      LexIsNumericOnEqualLength(a, b);
    }
  }
}
