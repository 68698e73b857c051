/**
  The pre-release section of a version: empty, or dot-separated identifiers
  over `[0-9A-Za-z-]` whose numeric members have no leading zero (item 9 of
  Semantic Versioning 2.0.0). Precedence follows section 11.4 of that
  standard.
*/
module PreRelease {
  import opened Wrappers
  import opened Exception
  import Strings
  import Decimal
  import Identifier

  datatype PreRelease = PreRelease(value: string) {
    predicate Valid() {
      IsValid(value)
    }
  }

  /** The identifier list a (non-empty) pre-release string holds. */
  predicate AllPreReleaseIdentifiers(ids: seq<string>) {
    forall i :: 0 <= i < |ids| ==> Identifier.IsPreReleaseIdentifier(ids[i])
  }

  /** The empty string (no pre-release), or identifiers each valid, between single dots. */
  predicate IsValid(s: string) {
    s == "" || AllPreReleaseIdentifiers(Identifier.Pieces(s))
  }

  /** `fromString`: the validating factory; the text is stored verbatim. */
  function FromString(s: string): (r: Result<PreRelease, Error>)
    ensures r.Ok? ==> r.value.Valid() && r.value.value == s
    ensures r.Err? ==> r.error == InvalidPreRelease
  {
    if IsValid(s) then Ok(PreRelease(s)) else Err(InvalidPreRelease)
  }

  /** `empty()`: no pre-release at all. */
  function Empty(): (r: PreRelease)
    ensures ToString(r) == "" && FromString("") == Ok(r)
  {
    PreRelease("")
  }

  /** `toString`: the stored text, from which `fromString` rebuilds the same value. */
  function ToString(p: PreRelease): (s: string)
    ensures p.Valid() ==> FromString(s) == Ok(p)
  {
    p.value
  }

  /** `equals`: textual equality, which is equality of the values. */
  function Equals(a: PreRelease, b: PreRelease): (r: bool)
    ensures r <==> a == b
  {
    a.value == b.value
  }

  /** Whatever `fromString` accepts, `toString` gives back unchanged. */
  lemma FromStringToString(s: string)
    requires FromString(s).Ok?
    ensures ToString(FromString(s).value) == s
  {
  }

  /**
    The grammar `ident ("." ident)*`: joining a non-empty list of valid
    identifiers with dots is accepted, and the identifiers come back out.
  */
  lemma {:induction false} AcceptsJoinedIdentifiers(ids: seq<string>)
    requires |ids| >= 1 && AllPreReleaseIdentifiers(ids)
    ensures FromString(Strings.Join(ids, '.')).Ok?
    ensures Identifier.Pieces(Strings.Join(ids, '.')) == ids
  {
    Strings.SplitJoin(ids, '.');
  }

  /** Conversely, every accepted non-empty string is such a join. */
  lemma AcceptedIsJoinedIdentifiers(s: string)
    requires FromString(s).Ok? && s != ""
    ensures |Identifier.Pieces(s)| >= 1 && AllPreReleaseIdentifiers(Identifier.Pieces(s))
    ensures Strings.Join(Identifier.Pieces(s), '.') == s
  {
    Strings.JoinSplit(s, '.');
  }

  /**
    One bad identifier spoils the whole section: an empty one (as in
    `"alpha..1"` or a trailing dot), a character outside the alphabet, or a
    numeric one with a leading zero. The one case left open is the single
    empty identifier, which is the empty pre-release itself.
  */
  lemma RejectsInvalidIdentifier(ids: seq<string>, bad: nat)
    requires |ids| >= 2 || (|ids| == 1 && ids[0] != "")
    requires forall i :: 0 <= i < |ids| ==> '.' !in ids[i]
    requires bad < |ids| && !Identifier.IsPreReleaseIdentifier(ids[bad])
    ensures FromString(Strings.Join(ids, '.')) == Err(InvalidPreRelease)
  {
    Identifier.PiecesOfDottedJoin(ids);
  }

  /** `equals` holds of two accepted values exactly when they were built from the same string. */
  lemma EqualsIffSameString(s: string, t: string)
    requires FromString(s).Ok? && FromString(t).Ok?
    ensures Equals(FromString(s).value, FromString(t).value) <==> s == t
  {
  }

  // ---------------------------------------------------------------------
  // Precedence, as section 11.4 of Semantic Versioning 2.0.0 defines it.
  // ---------------------------------------------------------------------

  /**
    One identifier against another: numeric ones by magnitude, alphanumeric
    ones by ASCII order, and a numeric one below an alphanumeric one.
  */
  function CompareIdentifiers(x: string, y: string): (r: int)
    requires Identifier.IsPreReleaseIdentifier(x) && Identifier.IsPreReleaseIdentifier(y)
    ensures -1 <= r <= 1
    ensures Identifier.IsNumeric(x) && Identifier.IsNumeric(y) ==> r == Decimal.Cmp(Decimal.Value(x), Decimal.Value(y))
    ensures Identifier.IsNumeric(x) != Identifier.IsNumeric(y) ==> (r == -1 <==> Identifier.IsNumeric(x))
  {
    if Identifier.IsNumeric(x) && Identifier.IsNumeric(y) then
      Decimal.CompareDecimalIsNumeric(x, y);
      Decimal.CompareDecimal(x, y)
    else if Identifier.IsNumeric(x) then -1
    else if Identifier.IsNumeric(y) then 1
    else Strings.LexCompare(x, y)
  }

  /** Identifier lists left to right; a proper prefix sorts first. */
  function CompareIdentifierLists(xs: seq<string>, ys: seq<string>): (r: int)
    requires AllPreReleaseIdentifiers(xs) && AllPreReleaseIdentifiers(ys)
    ensures -1 <= r <= 1
  {
    if xs == [] && ys == [] then 0
    else if xs == [] then -1
    else if ys == [] then 1
    else
      var c := CompareIdentifiers(xs[0], ys[0]);
      if c != 0 then c else CompareIdentifierLists(xs[1..], ys[1..])
  }

  /** `compare`: no pre-release sorts after every pre-release. */
  function Compare(a: PreRelease, b: PreRelease): (r: int)
    requires a.Valid() && b.Valid()
    ensures -1 <= r <= 1
  {
    if a.value == "" && b.value == "" then 0
    else if a.value == "" then 1
    else if b.value == "" then -1
    else CompareIdentifierLists(Identifier.Pieces(a.value), Identifier.Pieces(b.value))
  }

  lemma CompareIdentifiersProperties(x: string, y: string)
    requires Identifier.IsPreReleaseIdentifier(x) && Identifier.IsPreReleaseIdentifier(y)
    ensures -1 <= CompareIdentifiers(x, y) <= 1
    ensures CompareIdentifiers(x, y) == 0 <==> x == y
    ensures CompareIdentifiers(x, y) == -CompareIdentifiers(y, x)
  {
    if Identifier.IsNumeric(x) && Identifier.IsNumeric(y) {
      Decimal.CompareDecimalIsNumeric(x, y);
      Decimal.CompareDecimalIsNumeric(y, x);
      if Decimal.Value(x) == Decimal.Value(y) {
        Decimal.CanonicalInjective(x, y);
      }
    } else if !Identifier.IsNumeric(x) && !Identifier.IsNumeric(y) {
      Strings.LexCompareZeroIff(x, y);
      Strings.LexCompareAntisymmetric(x, y);
    }
  }

  lemma CompareIdentifiersTransitive(x: string, y: string, z: string)
    requires Identifier.IsPreReleaseIdentifier(x) && Identifier.IsPreReleaseIdentifier(y)
    requires Identifier.IsPreReleaseIdentifier(z)
    requires CompareIdentifiers(x, y) < 0 && CompareIdentifiers(y, z) < 0
    ensures CompareIdentifiers(x, z) < 0
  {
    if Identifier.IsNumeric(x) && Identifier.IsNumeric(y) && Identifier.IsNumeric(z) {
      Decimal.CompareDecimalIsNumeric(x, y);
      Decimal.CompareDecimalIsNumeric(y, z);
      Decimal.CompareDecimalIsNumeric(x, z);
    } else if !Identifier.IsNumeric(x) && !Identifier.IsNumeric(y) && !Identifier.IsNumeric(z) {
      Strings.LexCompareTransitive(x, y, z);
    }
  }

  lemma {:induction false} CompareIdentifierListsProperties(xs: seq<string>, ys: seq<string>)
    requires AllPreReleaseIdentifiers(xs) && AllPreReleaseIdentifiers(ys)
    ensures -1 <= CompareIdentifierLists(xs, ys) <= 1
    ensures CompareIdentifierLists(xs, ys) == 0 <==> xs == ys
    ensures CompareIdentifierLists(xs, ys) == -CompareIdentifierLists(ys, xs)
  {
    if xs != [] && ys != [] {
      CompareIdentifiersProperties(xs[0], ys[0]);
      CompareIdentifierListsProperties(xs[1..], ys[1..]);
      if xs[0] == ys[0] && xs[1..] == ys[1..] {
        assert xs == [xs[0]] + xs[1..];
        assert ys == [ys[0]] + ys[1..];
      }
    }
  }

  lemma {:induction false} CompareIdentifierListsTransitive(xs: seq<string>, ys: seq<string>, zs: seq<string>)
    requires AllPreReleaseIdentifiers(xs) && AllPreReleaseIdentifiers(ys) && AllPreReleaseIdentifiers(zs)
    requires CompareIdentifierLists(xs, ys) < 0 && CompareIdentifierLists(ys, zs) < 0
    ensures CompareIdentifierLists(xs, zs) < 0
  {
    if xs != [] && ys != [] && zs != [] {
      CompareIdentifiersProperties(xs[0], ys[0]);
      CompareIdentifiersProperties(ys[0], zs[0]);
      CompareIdentifiersProperties(xs[0], zs[0]);
      var cxy, cyz := CompareIdentifiers(xs[0], ys[0]), CompareIdentifiers(ys[0], zs[0]);
      if cxy == 0 && cyz == 0 {
        CompareIdentifierListsTransitive(xs[1..], ys[1..], zs[1..]);
      } else if cxy < 0 && cyz < 0 {
        CompareIdentifiersTransitive(xs[0], ys[0], zs[0]);
      }
    }
  }

  /** `compare` is a three-way result, zero exactly on equal values, and antisymmetric. */
  lemma CompareIsAntisymmetric(a: PreRelease, b: PreRelease)
    requires a.Valid() && b.Valid()
    ensures -1 <= Compare(a, b) <= 1
    ensures Compare(a, b) == 0 <==> a == b
    ensures Compare(a, b) == -Compare(b, a)
  {
    if a.value != "" && b.value != "" {
      CompareIdentifierListsProperties(Identifier.Pieces(a.value), Identifier.Pieces(b.value));
      Strings.JoinSplit(a.value, '.');
      Strings.JoinSplit(b.value, '.');
    }
  }

  lemma CompareIsTransitive(a: PreRelease, b: PreRelease, c: PreRelease)
    requires a.Valid() && b.Valid() && c.Valid()
    requires Compare(a, b) < 0 && Compare(b, c) < 0
    ensures Compare(a, c) < 0
  {
    if a.value != "" && b.value != "" && c.value != "" {
      CompareIdentifierListsTransitive(Identifier.Pieces(a.value), Identifier.Pieces(b.value), Identifier.Pieces(c.value));
    }
  }

  /** A version without pre-release has higher precedence than any with one. */
  lemma EmptyIsGreatest(p: PreRelease)
    requires p.Valid() && p != Empty()
    ensures Compare(Empty(), p) == 1 && Compare(p, Empty()) == -1
  {
  }

  /** A proper prefix of identifiers has lower precedence than the longer list. */
  lemma {:induction false} PrefixIsLower(xs: seq<string>, ys: seq<string>)
    requires AllPreReleaseIdentifiers(xs) && AllPreReleaseIdentifiers(xs + ys) && |ys| >= 1
    ensures CompareIdentifierLists(xs, xs + ys) == -1
    decreases |xs|
  {
    if xs != [] {
      assert (xs + ys)[0] == xs[0];
      assert (xs + ys)[1..] == xs[1..] + ys;
      CompareIdentifiersProperties(xs[0], xs[0]);
      assert AllPreReleaseIdentifiers(xs[1..] + ys) by {
        forall i | 0 <= i < |xs[1..] + ys|
          ensures Identifier.IsPreReleaseIdentifier((xs[1..] + ys)[i])
        {
          assert (xs[1..] + ys)[i] == (xs + ys)[i + 1];
        }
      }
      PrefixIsLower(xs[1..], ys);
    }
  }

  /** `compare` on two joined identifier lists is the comparison of the lists themselves. */
  lemma CompareOnIdentifiers(xs: seq<string>, ys: seq<string>)
    requires |xs| >= 1 && AllPreReleaseIdentifiers(xs)
    requires |ys| >= 1 && AllPreReleaseIdentifiers(ys)
    ensures PreRelease(Strings.Join(xs, '.')).Valid() && PreRelease(Strings.Join(ys, '.')).Valid()
    ensures Compare(PreRelease(Strings.Join(xs, '.')), PreRelease(Strings.Join(ys, '.'))) == CompareIdentifierLists(xs, ys)
  {
    AcceptsJoinedIdentifiers(xs);
    AcceptsJoinedIdentifiers(ys);
    assert |Strings.Join(xs, '.')| >= |xs[0]|;
    assert |Strings.Join(ys, '.')| >= |ys[0]|;
  }

  // The example of section 11.4 of Semantic Versioning 2.0.0, one step at a
  // time: alpha < alpha.1 < alpha.beta < beta < beta.2 < beta.11 < rc.1, and
  // rc.1 below no pre-release at all.

  /** A longer list with the same start has the higher precedence. */
  lemma ExampleAlphaBelowAlpha1()
    ensures CompareIdentifierLists(["alpha"], ["alpha", "1"]) == -1
  {
    PrefixIsLower(["alpha"], ["1"]);
    assert ["alpha"] + ["1"] == ["alpha", "1"];
  }

  /** A numeric identifier is below an alphanumeric one. */
  lemma ExampleAlpha1BelowAlphaBeta()
    ensures CompareIdentifierLists(["alpha", "1"], ["alpha", "beta"]) == -1
  {
    var xs, ys := ["alpha", "1"], ["alpha", "beta"];
    assert !Decimal.IsDigit(xs[0][0]) && !Decimal.IsDigit(ys[1][0]);
    CompareIdentifiersProperties(xs[0], ys[0]);
    assert CompareIdentifiers(xs[1], ys[1]) == -1;
    assert xs[1..] == ["1"] && ys[1..] == ["beta"];
  }

  /** Alphanumeric identifiers compare in ASCII order, before the lengths matter. */
  lemma ExampleAlphaBetaBelowBeta()
    ensures CompareIdentifierLists(["alpha", "beta"], ["beta"]) == -1
  {
    var xs, ys := ["alpha", "beta"], ["beta"];
    assert !Decimal.IsDigit(xs[0][0]) && !Decimal.IsDigit(ys[0][0]);
    assert Strings.LexCompare(xs[0], ys[0]) == -1;
  }

  lemma ExampleBetaBelowBeta2()
    ensures CompareIdentifierLists(["beta"], ["beta", "2"]) == -1
  {
    PrefixIsLower(["beta"], ["2"]);
    assert ["beta"] + ["2"] == ["beta", "2"];
  }

  /** Numeric identifiers compare by magnitude: 2 < 11. */
  lemma ExampleBeta2BelowBeta11()
    ensures CompareIdentifierLists(["beta", "2"], ["beta", "11"]) == -1
  {
    var xs, ys := ["beta", "2"], ["beta", "11"];
    assert !Decimal.IsDigit(xs[0][0]);
    CompareIdentifiersProperties(xs[0], ys[0]);
    assert CompareIdentifiers(xs[1], ys[1]) == -1;
    assert xs[1..] == ["2"] && ys[1..] == ["11"];
  }

  lemma ExampleBeta11BelowRc1()
    ensures CompareIdentifierLists(["beta", "11"], ["rc", "1"]) == -1
  {
    var xs, ys := ["beta", "11"], ["rc", "1"];
    assert !Decimal.IsDigit(xs[0][0]) && !Decimal.IsDigit(ys[0][0]);
    assert Strings.LexCompare(xs[0], ys[0]) == -1;
  }

  lemma ExampleRc1BelowRelease()
    ensures Compare(PreRelease("rc.1"), Empty()) == -1
  {
    var ids := ["rc", "1"];
    assert !Decimal.IsDigit(ids[0][0]);
    AcceptsJoinedIdentifiers(ids);
    assert Strings.Join(ids, '.') == "rc.1";
    EmptyIsGreatest(PreRelease("rc.1"));
  }
}
