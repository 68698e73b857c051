/**
  A full Semantic Versioning 2.0.0 version string,
  `MAJOR.MINOR.PATCH[-PRERELEASE][+BUILD]`, as an immutable value built
  only by a validating parser and turned back into exactly the text it was
  parsed from.
*/
module Version {
  import opened Wrappers
  import opened Exception
  import Strings
  import Decimal
  import Identifier
  import Minor
  import PreRelease
  import BuildMetadata

  /** The three numeric fields share the `Minor` field's grammar and behaviour. */
  datatype Version = Version(
    major: Minor.Minor,
    minor: Minor.Minor,
    patch: Minor.Minor,
    preRelease: PreRelease.PreRelease,
    buildMetadata: BuildMetadata.BuildMetadata)
  {
    predicate Valid() {
      major.Valid() && minor.Valid() && patch.Valid() && preRelease.Valid() && buildMetadata.Valid()
    }
  }

  /** `toString`: the fields with their separators; an empty section is left out with its separator. */
  function ToString(v: Version): string
  {
    NormalPart(v) + Section('-', v.preRelease.value) + Section('+', v.buildMetadata.value)
  }

  function NormalPart(v: Version): string
  {
    v.major.value + "." + v.minor.value + "." + v.patch.value
  }

  function Section(separator: char, text: string): string
  {
    if text == "" then "" else [separator] + text
  }

  /** The text after the first `c`, when `s` holds one, and the text before it. */
  function Before(s: string, c: char): string
  {
    s[..Strings.Find(s, c)]
  }

  function After(s: string, c: char): Option<string>
  {
    var i := Strings.Find(s, c);
    if i < |s| then Some(s[i + 1..]) else None
  }

  /** Cutting at the first `c` and putting the pieces back together gives `s`. */
  lemma CutReassembles(s: string, c: char)
    ensures After(s, c).None? ==> s == Before(s, c)
    ensures After(s, c).Some? ==> s == Before(s, c) + [c] + After(s, c).value
    ensures c !in Before(s, c)
  {
    var i := Strings.Find(s, c);
    if i < |s| {
      assert s == s[..i] + [s[i]] + s[i + 1..];
    } else {
      assert s[..i] == s;
    }
  }

  /** The section that follows a separator, which must not be empty when the separator is there. */
  function SectionText(cut: Option<string>): Option<string>
  {
    match cut
    case None => Some("")
    case Some(t) => if t == "" then None else Some(t)
  }

  /**
    `fromString`: the build metadata is what follows the first `+`, the
    pre-release what follows the first `-` before it, and what remains must
    be exactly three numeric fields between dots. Any deviation is
    `InvalidVersion`.
  */
  function FromString(s: string): (r: Result<Version, Error>)
    ensures r.Ok? ==> r.value.Valid() && ToString(r.value) == s
    ensures r.Err? ==> r.error == InvalidVersion
  {
    var main := Before(s, '+');
    var normal := Before(main, '-');
    var numbers := Strings.Split(normal, '.');
    var pre := SectionText(After(main, '-'));
    var build := SectionText(After(s, '+'));
    if |numbers| != 3 || pre.None? || build.None? then Err(InvalidVersion)
    else
      var major := Minor.FromString(numbers[0]);
      var minor := Minor.FromString(numbers[1]);
      var patch := Minor.FromString(numbers[2]);
      var preRelease := PreRelease.FromString(pre.value);
      var buildMetadata := BuildMetadata.FromString(build.value);
      if major.Err? || minor.Err? || patch.Err? || preRelease.Err? || buildMetadata.Err? then
        Err(InvalidVersion)
      else
        var v := Version(major.value, minor.value, patch.value, preRelease.value, buildMetadata.value);
        PiecesRebuild(s, v);
        Ok(v)
  }

  lemma JoinThree(parts: seq<string>, sep: char)
    requires |parts| == 3
    ensures Strings.Join(parts, sep) == parts[0] + [sep] + parts[1] + [sep] + parts[2]
  {
    assert parts[1..][1..] == [parts[2]];
    assert Strings.Join(parts[1..], sep) == parts[1] + [sep] + parts[2];
  }

  /** The pieces `fromString` cuts a string into put the string back together. */
  lemma PiecesRebuild(s: string, v: Version)
    requires Strings.Split(Before(Before(s, '+'), '-'), '.') == [v.major.value, v.minor.value, v.patch.value]
    requires SectionText(After(Before(s, '+'), '-')) == Some(v.preRelease.value)
    requires SectionText(After(s, '+')) == Some(v.buildMetadata.value)
    ensures ToString(v) == s
  {
    var main := Before(s, '+');
    var normal := Before(main, '-');
    CutReassembles(s, '+');
    CutReassembles(main, '-');
    assert main + Section('+', v.buildMetadata.value) == s;
    assert normal + Section('-', v.preRelease.value) == main;
    Strings.JoinSplit(normal, '.');
    JoinThree([v.major.value, v.minor.value, v.patch.value], '.');
    assert NormalPart(v) == normal;
  }

  /**
    `equals`: textual equality of the two versions' strings. On valid
    versions it is identity of the values: no two valid versions share a
    string.
  */
  function Equals(a: Version, b: Version): (r: bool)
    ensures a.Valid() && b.Valid() ==> (r <==> a == b)
  {
    if a.Valid() && b.Valid() then
      ToStringFromString(a);
      ToStringFromString(b);
      ToString(a) == ToString(b)
    else
      ToString(a) == ToString(b)
  }

  lemma DigitsHaveNoSeparator(m: Minor.Minor, c: char)
    requires m.Valid() && !Decimal.IsDigit(c)
    ensures c !in m.value
  {
  }

  /** Sections written in the identifier alphabet and dots hold no `+`. */
  lemma SectionHasNo(text: string, c: char)
    requires forall k :: 0 <= k < |text| ==> Identifier.IsIdentChar(text[k]) || text[k] == '.'
    requires !Identifier.IsIdentChar(c) && c != '.'
    ensures c !in text
  {
  }

  lemma NoSeparatorIn(x: string, y: string, c: char)
    requires c !in x && c !in y
    ensures c !in x + y
  {
  }

  /** Cutting `a + [c] + b` at the first `c`, when `a` holds none, recovers `a` and `b`. */
  lemma CutAtSeparator(a: string, c: char, b: string)
    requires c !in a
    ensures Before(a + [c] + b, c) == a && After(a + [c] + b, c) == Some(b)
  {
    Strings.FindAfterPrefix(a, c, b);
    assert (a + [c] + b)[..|a|] == a;
    assert (a + [c] + b)[|a| + 1..] == b;
  }

  lemma CutAbsent(a: string, c: char)
    requires c !in a
    ensures Before(a, c) == a && After(a, c) == None
  {
    Strings.FindAbsent(a, c);
  }

  /** The cut at `c` of a text followed by a `c`-section takes that section back off. */
  lemma CutSection(a: string, c: char, text: string)
    requires c !in a
    ensures Before(a + Section(c, text), c) == a
    ensures SectionText(After(a + Section(c, text), c)) == Some(text)
  {
    if text == "" {
      assert a + Section(c, text) == a;
      CutAbsent(a, c);
    } else {
      assert a + Section(c, text) == a + [c] + text;
      CutAtSeparator(a, c, text);
    }
  }

  /** Every valid version parses back from its string, to itself. */
  lemma ToStringFromString(v: Version)
    requires v.Valid()
    ensures FromString(ToString(v)) == Ok(v)
  {
    var normal := NormalPart(v);
    var pre, build := v.preRelease.value, v.buildMetadata.value;
    var main := normal + Section('-', pre);
    assert ToString(v) == main + Section('+', build);

    // the numeric part holds neither separator nor any `+`
    DigitsHaveNoSeparator(v.major, '.');
    DigitsHaveNoSeparator(v.minor, '.');
    DigitsHaveNoSeparator(v.patch, '.');
    forall c | c == '-' || c == '+' || c == '.'
      ensures c in normal ==> c == '.'
    {
      if c != '.' {
        DigitsHaveNoSeparator(v.major, c);
        DigitsHaveNoSeparator(v.minor, c);
        DigitsHaveNoSeparator(v.patch, c);
        NoSeparatorIn(v.major.value, ".", c);
        NoSeparatorIn(v.major.value + ".", v.minor.value, c);
        NoSeparatorIn(v.major.value + "." + v.minor.value, ".", c);
        NoSeparatorIn(v.major.value + "." + v.minor.value + ".", v.patch.value, c);
      }
    }

    // nor does the pre-release
    if pre != "" {
      Identifier.SectionAlphabet(pre);
    }
    SectionHasNo(pre, '+');
    NoSeparatorIn(normal, Section('-', pre), '+');

    CutSection(main, '+', build);
    CutSection(normal, '-', pre);

    var parts := [v.major.value, v.minor.value, v.patch.value];
    JoinThree(parts, '.');
    Strings.SplitJoin(parts, '.');
  }

  /** The grammar: `fromString` accepts exactly the strings of valid versions. */
  lemma FromStringAcceptsExactlyVersionStrings(s: string)
    ensures FromString(s).Ok? <==> exists v: Version :: v.Valid() && ToString(v) == s
  {
    if exists v: Version :: v.Valid() && ToString(v) == s {
      var v: Version :| v.Valid() && ToString(v) == s;
      ToStringFromString(v);
    }
  }

  /** Two parsed versions are `equals` exactly when they were parsed from the same string. */
  lemma EqualsIffSameString(s: string, t: string)
    requires FromString(s).Ok? && FromString(t).Ok?
    ensures Equals(FromString(s).value, FromString(t).value) <==> s == t
  {
  }

  // ---------------------------------------------------------------------
  // The grammar rule by rule: what `fromString` accepts and rejects.
  // ---------------------------------------------------------------------

  /** The numeric part of a version string ends at its first `-` or `+`. */
  lemma CutNormal(normal: string, rest: string)
    requires '-' !in normal && '+' !in normal
    requires rest == [] || rest[0] == '-' || rest[0] == '+'
    ensures Before(Before(normal + rest, '+'), '-') == normal
  {
    var s := normal + rest;
    if rest == [] {
      assert s == normal;
      CutAbsent(normal, '+');
      CutAbsent(normal, '-');
    } else if rest[0] == '+' {
      assert s == normal + ['+'] + rest[1..];
      CutAtSeparator(normal, '+', rest[1..]);
      CutAbsent(normal, '-');
    } else {
      var i := Strings.Find(s, '+');
      assert s[|normal|] == '-';
      var main := s[..i];
      assert main == normal + ['-'] + main[|normal| + 1..];
      CutAtSeparator(normal, '-', main[|normal| + 1..]);
    }
  }

  /** The numeric fields, joined with dots, contain neither `-` nor `+`. */
  lemma FieldsHaveNoSectionSeparator(fields: seq<string>)
    requires |fields| >= 1
    requires forall i :: 0 <= i < |fields| ==> '.' !in fields[i] && '-' !in fields[i] && '+' !in fields[i]
    ensures '-' !in Strings.Join(fields, '.') && '+' !in Strings.Join(fields, '.')
    ensures Strings.Split(Strings.Join(fields, '.'), '.') == fields
  {
    Strings.JoinExcludes(fields, '.', '-');
    Strings.JoinExcludes(fields, '.', '+');
    Strings.SplitJoin(fields, '.');
  }

  /** Exactly three numeric fields are required: `"1"`, `"1.2"`, `"1.2.3.DEV"`, `"1.2-SNAPSHOT"` fail. */
  lemma RejectsFieldCount(s: string, fields: seq<string>, rest: string)
    requires |fields| >= 1 && |fields| != 3
    requires forall i :: 0 <= i < |fields| ==> '.' !in fields[i] && '-' !in fields[i] && '+' !in fields[i]
    requires rest == [] || rest[0] == '-' || rest[0] == '+'
    requires s == Strings.Join(fields, '.') + rest
    ensures FromString(s) == Err(InvalidVersion)
  {
    FieldsHaveNoSectionSeparator(fields);
    CutNormal(Strings.Join(fields, '.'), rest);
  }

  /** Each numeric field follows the field grammar: a leading zero or a letter there fails. */
  lemma RejectsInvalidField(s: string, fields: seq<string>, rest: string, bad: nat)
    requires |fields| == 3 && bad < 3 && !Decimal.IsCanonical(fields[bad])
    requires forall i :: 0 <= i < |fields| ==> '.' !in fields[i] && '-' !in fields[i] && '+' !in fields[i]
    requires rest == [] || rest[0] == '-' || rest[0] == '+'
    requires s == Strings.Join(fields, '.') + rest
    ensures FromString(s) == Err(InvalidVersion)
  {
    FieldsHaveNoSectionSeparator(fields);
    CutNormal(Strings.Join(fields, '.'), rest);
  }

  /** An empty or invalid pre-release after the `-` fails the whole version. */
  lemma RejectsInvalidPreRelease(s: string, normal: string, pre: string, rest: string)
    requires '-' !in normal && '+' !in normal && '+' !in pre
    requires rest == [] || rest[0] == '+'
    requires pre == "" || !PreRelease.IsValid(pre)
    requires s == normal + "-" + pre + rest
    ensures FromString(s) == Err(InvalidVersion)
  {
    var main := normal + "-" + pre;
    NoSeparatorIn(normal, "-", '+');
    NoSeparatorIn(normal + "-", pre, '+');
    if rest == [] {
      assert s == main;
      CutAbsent(main, '+');
    } else {
      assert s == main + ['+'] + rest[1..];
      CutAtSeparator(main, '+', rest[1..]);
    }
    CutAtSeparator(normal, '-', pre);
  }

  /** The same rule stated on the identifiers: one bad identifier among them fails the whole version. */
  lemma RejectsPreReleaseIdentifier(s: string, normal: string, ids: seq<string>, bad: nat, rest: string)
    requires '-' !in normal && '+' !in normal
    requires |ids| >= 2 || (|ids| == 1 && ids[0] != "")
    requires forall i, k :: 0 <= i < |ids| && 0 <= k < |ids[i]| ==> ids[i][k] != '.' && ids[i][k] != '+'
    requires bad < |ids| && !Identifier.IsPreReleaseIdentifier(ids[bad])
    requires rest == [] || rest[0] == '+'
    requires s == normal + "-" + Strings.Join(ids, '.') + rest
    ensures FromString(s) == Err(InvalidVersion)
  {
    assert forall i :: 0 <= i < |ids| ==> '.' !in ids[i] && '+' !in ids[i];
    PreRelease.RejectsInvalidIdentifier(ids, bad);
    Strings.JoinExcludes(ids, '.', '+');
    RejectsInvalidPreRelease(s, normal, Strings.Join(ids, '.'), rest);
  }

  /** An empty or invalid build section after the first `+` fails the whole version; so does a second `+`. */
  lemma RejectsInvalidBuildMetadata(s: string, main: string, build: string)
    requires '+' !in main
    requires build == "" || !BuildMetadata.IsValid(build)
    requires s == main + "+" + build
    ensures FromString(s) == Err(InvalidVersion)
  {
    CutAtSeparator(main, '+', build);
  }

  /** The same rule stated on the identifiers; a `+` inside one of them is out of the alphabet too. */
  lemma RejectsBuildIdentifier(s: string, main: string, ids: seq<string>, bad: nat)
    requires '+' !in main
    requires |ids| >= 2 || (|ids| == 1 && ids[0] != "")
    requires forall i :: 0 <= i < |ids| ==> '.' !in ids[i]
    requires bad < |ids| && !Identifier.IsBuildIdentifier(ids[bad])
    requires s == main + "+" + Strings.Join(ids, '.')
    ensures FromString(s) == Err(InvalidVersion)
  {
    BuildMetadata.RejectsInvalidIdentifier(ids, bad);
    RejectsInvalidBuildMetadata(s, main, Strings.Join(ids, '.'));
  }

  /**
    `MAJOR.MINOR.PATCH[-PRERELEASE][+BUILD]` from its parts: three fields of
    the numeric grammar and two lists of valid identifiers (either may be
    empty) make a string that parses and prints back unchanged.
  */
  lemma AcceptsParts(s: string, fields: seq<string>, preIds: seq<string>, buildIds: seq<string>)
    requires |fields| == 3 && forall i :: 0 <= i < 3 ==> Decimal.IsCanonical(fields[i])
    requires PreRelease.AllPreReleaseIdentifiers(preIds)
    requires BuildMetadata.AllBuildIdentifiers(buildIds)
    requires s == Strings.Join(fields, '.') + Section('-', Identifier.Dotted(preIds)) + Section('+', Identifier.Dotted(buildIds))
    ensures FromString(s).Ok? && ToString(FromString(s).value) == s
  {
    var pre := Identifier.Dotted(preIds);
    var build := Identifier.Dotted(buildIds);
    if preIds != [] {
      PreRelease.AcceptsJoinedIdentifiers(preIds);
    }
    if buildIds != [] {
      BuildMetadata.AcceptsJoinedIdentifiers(buildIds);
    }
    var v := Version(Minor.Minor(fields[0]), Minor.Minor(fields[1]), Minor.Minor(fields[2]),
                     PreRelease.PreRelease(pre), BuildMetadata.BuildMetadata(build));
    JoinThree(fields, '.');
    assert ToString(v) == s;
    ToStringFromString(v);
  }
}
