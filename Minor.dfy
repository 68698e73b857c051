/**
  The numeric version field `Minor`: an immutable value holding the decimal
  text of a non-negative integer without leading zeros (item 2 of Semantic
  Versioning 2.0.0). The text is kept verbatim so that values beyond PHP's
  native integer width stay exact.
*/
module Minor {
  import opened Wrappers
  import opened Exception
  import Decimal

  /** The bounds of a PHP `int` on a 64-bit build. */
  const PHP_INT_MAX: int := 0x7FFF_FFFF_FFFF_FFFF
  const PHP_INT_MIN: int := -0x8000_0000_0000_0000

  type PhpInt = i: int | PHP_INT_MIN <= i <= PHP_INT_MAX

  /** The readonly `$value`; only the factories below build one. */
  datatype Minor = Minor(value: string) {
    /** What every factory establishes: the text matches `0|[1-9][0-9]*`. */
    predicate Valid() {
      Decimal.IsCanonical(value)
    }
  }

  /** `fromInt`: rejects negative integers, otherwise stores the integer's decimal text. */
  function FromInt(n: PhpInt): (r: Result<Minor, Error>)
    ensures r.Err? <==> n < 0
    ensures r.Err? ==> r.error == InvalidMinor
    ensures r.Ok? ==> r.value.Valid() && Decimal.Value(r.value.value) == n
  {
    if n < 0 then Err(InvalidMinor)
    else
      Decimal.ToDecimalCorrect(n);
      Ok(Minor(Decimal.ToDecimal(n)))
  }

  /** `fromString`: accepts exactly the whole-string matches of `0|[1-9]\d*` and stores the text. */
  function FromString(s: string): (r: Result<Minor, Error>)
    ensures r.Ok? ==> r.value.Valid() && r.value.value == s
    ensures r.Err? ==> r.error == InvalidMinor
  {
    if Decimal.IsCanonical(s) then Ok(Minor(s)) else Err(InvalidMinor)
  }

  /** `toString`: the stored text, from which `fromString` rebuilds the same field. */
  function ToString(m: Minor): (s: string)
    ensures m.Valid() ==> FromString(s) == Ok(m)
  {
    m.value
  }

  /**
    The least magnitude a decimal string may have for its conversion to a
    double to overflow to INF: halfway between the largest finite double,
    (2^53 - 1) * 2^971, and 2^1024, where rounding to nearest (ties to even)
    goes up. It is 2^1024 - 2^970, a number of 309 decimal digits.
  */
  const DOUBLE_OVERFLOW: nat := 0xFF_FFFF_FFFF_FFFC_00000000_00000000_00000000_00000000_00000000_00000000_00000000_00000000_00000000_00000000_00000000_00000000_00000000_00000000_00000000_00000000_00000000_00000000_00000000_00000000_00000000_00000000_00000000_00000000_00000000_00000000_00000000_00000000_00000000_00000000_00

  /**
    PHP's `(int)` cast of the stored text. A digit string up to `PHP_INT_MAX`
    is read exactly. A longer one is first read as a double; a finite double
    at or above 2^63 is capped at `PHP_INT_MAX`, but a string past the double
    range reads as INF, and the cast of a non-finite double is 0.
  */
  function CastToInt(s: string): (i: PhpInt)
    requires Decimal.AllDigits(s)
    ensures Decimal.Value(s) <= PHP_INT_MAX ==> i == Decimal.Value(s)
    ensures PHP_INT_MAX <= Decimal.Value(s) < DOUBLE_OVERFLOW ==> i == PHP_INT_MAX
    ensures DOUBLE_OVERFLOW <= Decimal.Value(s) ==> i == 0
  {
    if Decimal.Value(s) <= PHP_INT_MAX then Decimal.Value(s)
    else if Decimal.Value(s) < DOUBLE_OVERFLOW then PHP_INT_MAX
    else 0
  }

  /** `bcadd($value, '1')`: exact decimal addition; the library itself is not modelled. */
  function BcAddOne(s: string): (r: string)
    requires Decimal.AllDigits(s)
    ensures Decimal.IsCanonical(r) && Decimal.Value(r) == Decimal.Value(s) + 1
  {
    Decimal.ToDecimalCorrect(Decimal.Value(s) + 1);
    Decimal.ToDecimal(Decimal.Value(s) + 1)
  }

  /**
    `bump`: the next value. Below `PHP_INT_MAX` native `+ 1` is used; from
    `PHP_INT_MAX` on, the exact bcmath path is taken, which fails with
    `ExtensionMissing` when bcmath is not loaded. This is the behaviour the
    `PHP_INT_MAX === (int) $value` branch condition intends; `BumpAsWritten`
    takes that branch condition as it stands.
  */
  function Bump(m: Minor, bcmathLoaded: bool): (r: Result<Minor, Error>)
    requires m.Valid()
    ensures r.Err? <==> Decimal.Value(m.value) >= PHP_INT_MAX && !bcmathLoaded
    ensures r.Err? ==> r.error == ExtensionMissing
    ensures r.Ok? ==> r.value.Valid() && Decimal.Value(r.value.value) == Decimal.Value(m.value) + 1
  {
    if Decimal.Value(m.value) >= PHP_INT_MAX then
      if !bcmathLoaded then Err(ExtensionMissing) else Ok(Minor(BcAddOne(m.value)))
    else
      var next: PhpInt := Decimal.Value(m.value) + 1;
      Decimal.ToDecimalCorrect(next);
      Ok(Minor(Decimal.ToDecimal(next)))
  }

  /**
    `bump` as written: the bcmath path is chosen by comparing the `(int)` cast
    with `PHP_INT_MAX`. Below `DOUBLE_OVERFLOW` this is `Bump`.
  */
  function BumpAsWritten(m: Minor, bcmathLoaded: bool): (r: Result<Minor, Error>)
    requires m.Valid()
    ensures Decimal.Value(m.value) < DOUBLE_OVERFLOW ==> r == Bump(m, bcmathLoaded)
  {
    var valueCastedToInt := CastToInt(m.value);
    if valueCastedToInt == PHP_INT_MAX then
      if !bcmathLoaded then Err(ExtensionMissing) else Ok(Minor(BcAddOne(m.value)))
    else
      var next: PhpInt := valueCastedToInt + 1;
      Ok(Minor(Decimal.ToDecimal(next)))
  }

  /**
    Past the double range the cast yields 0, so the code as written takes the
    native branch and bumps to `"1"`, with or without bcmath, where the
    successor was meant.
  */
  lemma AsWrittenBumpRestartsAtOne(n: nat, bcmathLoaded: bool)
    requires n >= DOUBLE_OVERFLOW
    ensures Minor(Decimal.ToDecimal(n)).Valid()
    ensures BumpAsWritten(Minor(Decimal.ToDecimal(n)), bcmathLoaded) == Ok(Minor("1"))
    ensures BumpAsWritten(Minor(Decimal.ToDecimal(n)), bcmathLoaded) != Bump(Minor(Decimal.ToDecimal(n)), bcmathLoaded)
  {
    Decimal.ToDecimalCorrect(n);
    Decimal.ToDecimalCorrect(1);
    assert Decimal.ToDecimal(1) == "1";
  }

  /**
    `compare`: PHP 8's `<=>` on two numeric strings compares them as numbers,
    so `"9"` sorts before `"10"`. Computed on the text, length first.
  */
  function Compare(a: Minor, b: Minor): (r: int)
    requires a.Valid() && b.Valid()
    ensures r == Decimal.Cmp(Decimal.Value(a.value), Decimal.Value(b.value))
  {
    Decimal.CompareDecimalIsNumeric(a.value, b.value);
    Decimal.CompareDecimal(a.value, b.value)
  }

  /** `fromString` accepts a string exactly when it is the decimal rendering of a natural number. */
  lemma FromStringAcceptsExactlyRenderings(s: string)
    ensures FromString(s).Ok? <==> exists n: nat :: Decimal.ToDecimal(n) == s
  {
    Decimal.CanonicalIffRendering(s);
  }

  /** Whatever `fromString` accepts, `toString` gives back unchanged. */
  lemma FromStringToString(s: string)
    requires FromString(s).Ok?
    ensures ToString(FromString(s).value) == s
  {
  }

  /** `fromInt(n)` renders `n` in decimal, and `fromString` of that text builds the same value. */
  lemma FromIntToString(n: PhpInt)
    requires n >= 0
    ensures ToString(FromInt(n).value) == Decimal.ToDecimal(n)
    ensures FromString(ToString(FromInt(n).value)) == FromInt(n)
  {
    Decimal.ToDecimalCorrect(n);
  }

  /** The value `bump` returns is again a valid field, and it is the successor's own rendering. */
  lemma BumpIsCanonicalSuccessor(m: Minor, bcmathLoaded: bool)
    requires m.Valid() && Bump(m, bcmathLoaded).Ok?
    ensures ToString(Bump(m, bcmathLoaded).value) == Decimal.ToDecimal(Decimal.Value(m.value) + 1)
    ensures FromString(ToString(Bump(m, bcmathLoaded).value)) == Bump(m, bcmathLoaded)
  {
    Decimal.CanonicalIsRendering(Bump(m, bcmathLoaded).value.value);
  }

  /** Below `PHP_INT_MAX` bump never fails, whether or not bcmath is loaded. */
  lemma BumpBelowMaxNeverFails(m: Minor, bcmathLoaded: bool)
    requires m.Valid() && Decimal.Value(m.value) < PHP_INT_MAX
    ensures Bump(m, bcmathLoaded) == Bump(m, !bcmathLoaded)
    ensures Bump(m, bcmathLoaded).Ok?
  {
  }

  /** `compare` is zero exactly on equal fields, and swapping the operands negates it. */
  lemma CompareIsAntisymmetric(a: Minor, b: Minor)
    requires a.Valid() && b.Valid()
    ensures Compare(a, b) == 0 <==> a == b
    ensures Compare(a, b) == -Compare(b, a)
  {
    if Decimal.Value(a.value) == Decimal.Value(b.value) {
      Decimal.CanonicalInjective(a.value, b.value);
    }
  }

  lemma CompareIsTransitive(a: Minor, b: Minor, c: Minor)
    requires a.Valid() && b.Valid() && c.Valid()
    requires Compare(a, b) < 0 && Compare(b, c) < 0
    ensures Compare(a, c) < 0
  {
  }

  /** Ordering is by magnitude, not by text: `"9"` is below `"10"`, while `"9"` is lexically after `"10"`. */
  lemma CompareByMagnitude()
    ensures Compare(Minor("9"), Minor("10")) == -1
    ensures Compare(Minor("10"), Minor("9")) == 1
  {
    assert Decimal.Value("9") == 9;
    assert "10"[..1] == "1";
    assert Decimal.Value("10") == 10;
  }

  /**
    `fromString` as the PCRE pattern behaves: without the `D` modifier `$`
    also matches just before a final newline, so `"1\n"` is admitted.
  */
  function FromStringAsWritten(s: string): (r: Result<Minor, Error>)
    ensures r.Ok? ==> r.value.value == s
    ensures r.Err? ==> r.error == InvalidMinor
    ensures Decimal.IsCanonical(s) ==> r.Ok?
    ensures (s == [] || s[|s| - 1] != '\n') ==> r == FromString(s)
  {
    if Decimal.IsCanonical(s) || (|s| >= 1 && s[|s| - 1] == '\n' && Decimal.IsCanonical(s[..|s| - 1]))
    then Ok(Minor(s))
    else Err(InvalidMinor)
  }

  /** The converse: whatever gets past the pattern without being canonical is one canonical string and one final newline. */
  lemma AsWrittenAcceptsOnlyOneNewline(s: string)
    requires FromStringAsWritten(s).Ok? && !Decimal.IsCanonical(s)
    ensures exists t :: Decimal.IsCanonical(t) && s == t + "\n"
  {
    assert s == s[..|s| - 1] + "\n";
  }

  /** Every canonical string followed by a newline gets past the pattern, although it is no valid field. */
  lemma AsWrittenAcceptsTrailingNewline(s: string)
    requires Decimal.IsCanonical(s)
    ensures FromStringAsWritten(s + "\n").Ok?
    ensures !FromStringAsWritten(s + "\n").value.Valid()
    ensures FromString(s + "\n").Err?
  {
    assert (s + "\n")[..|s|] == s;
    assert !Decimal.IsDigit((s + "\n")[|s|]);
  }
}
