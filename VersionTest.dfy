/**
  The accept and reject vectors of test/Unit/VersionTest.php, one lemma per
  vector, named after the line that lists it. A section made of several
  identifiers is written as their dotted join, so that each vector reads as
  the parts the grammar rules in `Version` speak about; the comment above
  each lemma gives the string as the test lists it.
*/
module VersionTest {
  import opened Wrappers
  import opened Exception
  import Strings
  import Decimal
  import Identifier
  import Minor
  import Version
  import PreRelease
  import BuildMetadata

  /** `testFromStringReturnsVersion`: the string parses, and `toString` gives it back unchanged. */
  predicate RoundTrips(s: string) {
    Version.FromString(s).Ok? && Version.ToString(Version.FromString(s).value) == s
  }

  /** `testFromStringRejectsInvalidValue`: the string is refused with `InvalidVersion`. */
  predicate Rejected(s: string) {
    Version.FromString(s) == Err(InvalidVersion)
  }

  /** `normal` is three numeric fields between dots. */
  predicate NumericPart(normal: string, fields: seq<string>) {
    |fields| == 3 && (forall i :: 0 <= i < 3 ==> Decimal.IsCanonical(fields[i])) && normal == Strings.Join(fields, '.')
  }

  /** `text` is a non-empty section whose identifiers are `ids`. */
  predicate PreReleasePart(text: string, ids: seq<string>) {
    |ids| >= 1 && PreRelease.AllPreReleaseIdentifiers(ids) && text == Strings.Join(ids, '.')
  }

  predicate BuildMetadataPart(text: string, ids: seq<string>) {
    |ids| >= 1 && BuildMetadata.AllBuildIdentifiers(ids) && text == Strings.Join(ids, '.')
  }

  lemma RoundTripsNumeric(normal: string, fields: seq<string>)
    requires NumericPart(normal, fields)
    ensures RoundTrips(normal)
  {
    assert normal == Strings.Join(fields, '.') + Version.Section('-', Identifier.Dotted([])) + Version.Section('+', Identifier.Dotted([]));
    Version.AcceptsParts(normal, fields, [], []);
  }

  lemma RoundTripsWithPreRelease(normal: string, fields: seq<string>, pre: string, preIds: seq<string>)
    requires NumericPart(normal, fields) && PreReleasePart(pre, preIds)
    ensures RoundTrips(normal + "-" + pre)
  {
    assert normal + "-" + pre == Strings.Join(fields, '.') + Version.Section('-', Identifier.Dotted(preIds)) + Version.Section('+', Identifier.Dotted([]));
    Version.AcceptsParts(normal + "-" + pre, fields, preIds, []);
  }

  lemma RoundTripsWithBuildMetadata(normal: string, fields: seq<string>, build: string, buildIds: seq<string>)
    requires NumericPart(normal, fields) && BuildMetadataPart(build, buildIds)
    ensures RoundTrips(normal + "+" + build)
  {
    assert normal + "+" + build == Strings.Join(fields, '.') + Version.Section('-', Identifier.Dotted([])) + Version.Section('+', Identifier.Dotted(buildIds));
    Version.AcceptsParts(normal + "+" + build, fields, [], buildIds);
  }

  lemma RoundTripsWithBoth(normal: string, fields: seq<string>, pre: string, preIds: seq<string>, build: string, buildIds: seq<string>)
    requires NumericPart(normal, fields) && PreReleasePart(pre, preIds) && BuildMetadataPart(build, buildIds)
    ensures RoundTrips(normal + "-" + pre + "+" + build)
  {
    assert normal + "-" + pre + "+" + build == Strings.Join(fields, '.') + Version.Section('-', Identifier.Dotted(preIds)) + Version.Section('+', Identifier.Dotted(buildIds));
    Version.AcceptsParts(normal + "-" + pre + "+" + build, fields, preIds, buildIds);
  }

  /** Identifiers holding neither a dot nor a plus sign. */
  predicate Undotted(ids: seq<string>) {
    forall i, k :: 0 <= i < |ids| && 0 <= k < |ids[i]| ==> ids[i][k] != '.' && ids[i][k] != '+'
  }

  /** A pre-release section with one bad identifier, after valid numeric fields and with nothing after it. */
  lemma PreReleaseRejected(normal: string, fields: seq<string>, pre: string, ids: seq<string>, bad: nat)
    requires NumericPart(normal, fields)
    requires |ids| >= 2 || (|ids| == 1 && ids[0] != "")
    requires Undotted(ids)
    requires bad < |ids| && !Identifier.IsPreReleaseIdentifier(ids[bad])
    requires pre == Strings.Join(ids, '.')
    ensures Rejected(normal + "-" + pre)
  {
    forall i | 0 <= i < 3
      ensures '.' !in fields[i] && '-' !in fields[i] && '+' !in fields[i]
    {
      Version.DigitsHaveNoSeparator(Minor.Minor(fields[i]), '.');
      Version.DigitsHaveNoSeparator(Minor.Minor(fields[i]), '-');
      Version.DigitsHaveNoSeparator(Minor.Minor(fields[i]), '+');
    }
    Version.FieldsHaveNoSectionSeparator(fields);
    assert normal + "-" + pre == normal + "-" + Strings.Join(ids, '.') + "";
    Version.RejectsPreReleaseIdentifier(normal + "-" + pre, normal, ids, bad, "");
  }

  /** A build section with one bad identifier. */
  lemma BuildMetadataRejected(main: string, build: string, ids: seq<string>, bad: nat)
    requires '+' !in main
    requires |ids| >= 2 || (|ids| == 1 && ids[0] != "")
    requires forall i :: 0 <= i < |ids| ==> '.' !in ids[i]
    requires bad < |ids| && !Identifier.IsBuildIdentifier(ids[bad])
    requires build == Strings.Join(ids, '.')
    ensures Rejected(main + "+" + build)
  {
    Version.RejectsBuildIdentifier(main + "+" + build, main, ids, bad);
  }

  // The vectors. The parts several of them share come first.

  lemma FieldsOneZeroZero()
    ensures NumericPart("1.0.0", ["1", "0", "0"])
  {
  }

  lemma FieldsOneTwoThree()
    ensures NumericPart("1.2.3", ["1", "2", "3"])
  {
  }

  lemma PreReleaseRcSnapshot()
    ensures PreReleasePart(Strings.Join(["---RC-SNAPSHOT", "12", "9", "1--", "12"], '.'), ["---RC-SNAPSHOT", "12", "9", "1--", "12"])
  {
    var pre := ["---RC-SNAPSHOT", "12", "9", "1--", "12"];
    assert !Decimal.IsDigit(pre[0][0]);
    assert !Decimal.IsDigit(pre[3][1]);
  }

  /** Line 44: `1`. */
  lemma Rejects44()
    ensures Rejected("1")
  {
    var fields := ["1"];
    Version.RejectsFieldCount("1", fields, "");
  }

  /** Line 45: `1.2`. */
  lemma Rejects45()
    ensures Rejected("1.2")
  {
    var fields := ["1", "2"];
    Version.RejectsFieldCount("1.2", fields, "");
  }

  /** Line 46: `1.2.3-0123`. */
  lemma Rejects46()
    ensures Rejected("1.2.3" + "-" + "0123")
  {
    var ids := ["0123"];
    PreReleaseRejected("1.2.3", ["1", "2", "3"], "0123", ids, 0);
  }

  /** Line 47: `1.2.3-0123.0123`. */
  lemma Rejects47()
    ensures Rejected("1.2.3" + "-" + Strings.Join(["0123", "0123"], '.'))
  {
    var ids := ["0123", "0123"];
    PreReleaseRejected("1.2.3", ["1", "2", "3"], Strings.Join(["0123", "0123"], '.'), ids, 0);
  }

  /** Line 48: `1.1.2+.123`. */
  lemma Rejects48()
    ensures Rejected("1.1.2" + "+" + Strings.Join(["", "123"], '.'))
  {
    var ids := ["", "123"];
    BuildMetadataRejected("1.1.2", Strings.Join(["", "123"], '.'), ids, 0);
  }

  /** Line 49: `+invalid`. */
  lemma Rejects49()
    ensures Rejected("+invalid")
  {
    var fields := [""];
    Version.RejectsFieldCount("+invalid", fields, "+invalid");
  }

  /** Line 50: `-invalid`. */
  lemma Rejects50()
    ensures Rejected("-invalid")
  {
    var fields := [""];
    Version.RejectsFieldCount("-invalid", fields, "-invalid");
  }

  /** Line 51: `-invalid+invalid`. */
  lemma Rejects51()
    ensures Rejected("-invalid+invalid")
  {
    var fields := [""];
    Version.RejectsFieldCount("-invalid+invalid", fields, "-invalid+invalid");
  }

  /** Line 52: `-invalid.01`. */
  lemma Rejects52()
    ensures Rejected("-invalid.01")
  {
    var fields := [""];
    Version.RejectsFieldCount("-invalid.01", fields, "-invalid.01");
  }

  /** Line 53: `alpha`. */
  lemma Rejects53()
    ensures Rejected("alpha")
  {
    var fields := ["alpha"];
    Version.RejectsFieldCount("alpha", fields, "");
  }

  /** Line 54: `alpha.beta`. */
  lemma Rejects54()
    ensures Rejected("alpha.beta")
  {
    var fields := ["alpha", "beta"];
    Version.RejectsFieldCount("alpha.beta", fields, "");
  }

  /** Line 55: `alpha.beta.1`. */
  lemma Rejects55()
    ensures Rejected("alpha.beta.1")
  {
    var fields := ["alpha", "beta", "1"];
    Version.RejectsInvalidField("alpha.beta.1", fields, "", 0);
  }

  /** Line 56: `alpha.1`. */
  lemma Rejects56()
    ensures Rejected("alpha.1")
  {
    var fields := ["alpha", "1"];
    Version.RejectsFieldCount("alpha.1", fields, "");
  }

  /** Line 57: `alpha+beta`. */
  lemma Rejects57()
    ensures Rejected("alpha+beta")
  {
    var fields := ["alpha"];
    Version.RejectsFieldCount("alpha+beta", fields, "+beta");
  }

  /** Line 58: `alpha_beta`. */
  lemma Rejects58()
    ensures Rejected("alpha_beta")
  {
    var fields := ["alpha_beta"];
    Version.RejectsFieldCount("alpha_beta", fields, "");
  }

  /** Line 59: `alpha.`. */
  lemma Rejects59()
    ensures Rejected("alpha.")
  {
    var fields := ["alpha", ""];
    Version.RejectsFieldCount("alpha.", fields, "");
  }

  /** Line 60: `alpha..`. */
  lemma Rejects60()
    ensures Rejected("alpha..")
  {
    var fields := ["alpha", "", ""];
    Version.RejectsInvalidField("alpha..", fields, "", 0);
  }

  /** Line 61: `beta`. */
  lemma Rejects61()
    ensures Rejected("beta")
  {
    var fields := ["beta"];
    Version.RejectsFieldCount("beta", fields, "");
  }

  /** Line 62: `1.0.0-alpha_beta`. */
  lemma Rejects62()
    ensures Rejected("1.0.0" + "-" + "alpha_beta")
  {
    var ids := ["alpha_beta"];
    assert ids[0][5] == '_';
    PreReleaseRejected("1.0.0", ["1", "0", "0"], "alpha_beta", ids, 0);
  }

  /** Line 63: `-alpha.`. */
  lemma Rejects63()
    ensures Rejected("-alpha.")
  {
    var fields := [""];
    Version.RejectsFieldCount("-alpha.", fields, "-alpha.");
  }

  /** Line 64: `1.0.0-alpha..`. */
  lemma Rejects64()
    ensures Rejected("1.0.0" + "-" + Strings.Join(["alpha", "", ""], '.'))
  {
    var ids := ["alpha", "", ""];
    PreReleaseRejected("1.0.0", ["1", "0", "0"], Strings.Join(["alpha", "", ""], '.'), ids, 1);
  }

  /** Line 65: `1.0.0-alpha..1`. */
  lemma Rejects65()
    ensures Rejected("1.0.0" + "-" + Strings.Join(["alpha", "", "1"], '.'))
  {
    var ids := ["alpha", "", "1"];
    PreReleaseRejected("1.0.0", ["1", "0", "0"], Strings.Join(["alpha", "", "1"], '.'), ids, 1);
  }

  /** Line 66: `1.0.0-alpha...1`. */
  lemma Rejects66()
    ensures Rejected("1.0.0" + "-" + Strings.Join(["alpha", "", "", "1"], '.'))
  {
    var ids := ["alpha", "", "", "1"];
    PreReleaseRejected("1.0.0", ["1", "0", "0"], Strings.Join(["alpha", "", "", "1"], '.'), ids, 1);
  }

  /** Line 67: `1.0.0-alpha....1`. */
  lemma Rejects67()
    ensures Rejected("1.0.0" + "-" + Strings.Join(["alpha", "", "", "", "1"], '.'))
  {
    var ids := ["alpha", "", "", "", "1"];
    PreReleaseRejected("1.0.0", ["1", "0", "0"], Strings.Join(["alpha", "", "", "", "1"], '.'), ids, 1);
  }

  /** Line 68: `1.0.0-alpha.....1`. */
  lemma Rejects68()
    ensures Rejected("1.0.0" + "-" + Strings.Join(["alpha", "", "", "", "", "1"], '.'))
  {
    var ids := ["alpha", "", "", "", "", "1"];
    PreReleaseRejected("1.0.0", ["1", "0", "0"], Strings.Join(["alpha", "", "", "", "", "1"], '.'), ids, 1);
  }

  /** Line 69: `1.0.0-alpha......1`. */
  lemma Rejects69()
    ensures Rejected("1.0.0" + "-" + Strings.Join(["alpha", "", "", "", "", "", "1"], '.'))
  {
    var ids := ["alpha", "", "", "", "", "", "1"];
    PreReleaseRejected("1.0.0", ["1", "0", "0"], Strings.Join(["alpha", "", "", "", "", "", "1"], '.'), ids, 1);
  }

  lemma Identifiers70()
    ensures Undotted(["alpha", "", "", "", "", "", "", "1"])
  {
  }

  /** Line 70: `1.0.0-alpha.......1`. */
  lemma Rejects70()
    ensures Rejected("1.0.0" + "-" + Strings.Join(["alpha", "", "", "", "", "", "", "1"], '.'))
  {
    var ids := ["alpha", "", "", "", "", "", "", "1"];
    FieldsOneZeroZero();
    Identifiers70();
    PreReleaseRejected("1.0.0", ["1", "0", "0"], Strings.Join(["alpha", "", "", "", "", "", "", "1"], '.'), ids, 1);
  }

  /** Line 71: `01.1.1`. */
  lemma Rejects71()
    ensures Rejected("01.1.1")
  {
    var fields := ["01", "1", "1"];
    Version.RejectsInvalidField("01.1.1", fields, "", 0);
  }

  /** Line 72: `1.01.1`. */
  lemma Rejects72()
    ensures Rejected("1.01.1")
  {
    var fields := ["1", "01", "1"];
    Version.RejectsInvalidField("1.01.1", fields, "", 1);
  }

  /** Line 73: `1.1.01`. */
  lemma Rejects73()
    ensures Rejected("1.1.01")
  {
    var fields := ["1", "1", "01"];
    Version.RejectsInvalidField("1.1.01", fields, "", 2);
  }

  /** Line 74: `1.2.3.DEV`. */
  lemma Rejects74()
    ensures Rejected("1.2.3.DEV")
  {
    var fields := ["1", "2", "3", "DEV"];
    Version.RejectsFieldCount("1.2.3.DEV", fields, "");
  }

  /** Line 75: `1.2-SNAPSHOT`. */
  lemma Rejects75()
    ensures Rejected("1.2-SNAPSHOT")
  {
    var fields := ["1", "2"];
    Version.RejectsFieldCount("1.2-SNAPSHOT", fields, "-SNAPSHOT");
  }

  /** Line 76: `1.2.31.2.3----RC-SNAPSHOT.12.09.1--..12+788`. */
  lemma Rejects76()
    ensures Rejected("1.2.31.2.3" + "----RC-SNAPSHOT.12.09.1--..12+788")
  {
    var fields := ["1", "2", "31", "2", "3"];
    Version.RejectsFieldCount("1.2.31.2.3" + "----RC-SNAPSHOT.12.09.1--..12+788", fields, "----RC-SNAPSHOT.12.09.1--..12+788");
  }

  /** Line 77: `1.2-RC-SNAPSHOT`. */
  lemma Rejects77()
    ensures Rejected("1.2-RC-SNAPSHOT")
  {
    var fields := ["1", "2"];
    Version.RejectsFieldCount("1.2-RC-SNAPSHOT", fields, "-RC-SNAPSHOT");
  }

  /** Line 78: `-1.0.3-gamma+b7718`. */
  lemma Rejects78()
    ensures Rejected("-1.0.3-gamma+b7718")
  {
    var fields := [""];
    Version.RejectsFieldCount("-1.0.3-gamma+b7718", fields, "-1.0.3-gamma+b7718");
  }

  /** Line 79: `+justmeta`. */
  lemma Rejects79()
    ensures Rejected("+justmeta")
  {
    var fields := [""];
    Version.RejectsFieldCount("+justmeta", fields, "+justmeta");
  }

  /** Line 80: `9.8.7+meta+meta`. */
  lemma Rejects80()
    ensures Rejected("9.8.7" + "+" + "meta+meta")
  {
    var ids := ["meta+meta"];
    assert ids[0][4] == '+';
    BuildMetadataRejected("9.8.7", "meta+meta", ids, 0);
  }

  /** Line 81: `9.8.7-whatever+meta+meta`. */
  lemma Rejects81()
    ensures Rejected("9.8.7-whatever" + "+" + "meta+meta")
  {
    var ids := ["meta+meta"];
    assert ids[0][4] == '+';
    BuildMetadataRejected("9.8.7-whatever", "meta+meta", ids, 0);
  }

  lemma Fields82()
    ensures NumericPart(Strings.Join(["99999999999999999999999", "999999999999999999", "99999999999999999"], '.'), ["99999999999999999999999", "999999999999999999", "99999999999999999"])
  {
  }

  lemma Identifiers82()
    ensures Undotted(["---RC-SNAPSHOT", "12", "09", "1--------------------------------", "", "12"])
  {
  }

  /** Line 82: `99999999999999999999999.999999999999999999.99999999999999999----RC-SNAPSHOT.12.09.1--------------------------------..12`. */
  lemma Rejects82()
    ensures Rejected(Strings.Join(["99999999999999999999999", "999999999999999999", "99999999999999999"], '.') + "-" + Strings.Join(["---RC-SNAPSHOT", "12", "09", "1--------------------------------", "", "12"], '.'))
  {
    var ids := ["---RC-SNAPSHOT", "12", "09", "1--------------------------------", "", "12"];
    Fields82();
    Identifiers82();
    PreReleaseRejected(Strings.Join(["99999999999999999999999", "999999999999999999", "99999999999999999"], '.'), ["99999999999999999999999", "999999999999999999", "99999999999999999"], Strings.Join(["---RC-SNAPSHOT", "12", "09", "1--------------------------------", "", "12"], '.'), ids, 4);
  }

  /** Line 109: `0.0.4`. */
  lemma RoundTrips109()
    ensures RoundTrips("0.0.4")
  {
    RoundTripsNumeric("0.0.4", ["0", "0", "4"]);
  }

  /** Line 110: `1.2.3`. */
  lemma RoundTrips110()
    ensures RoundTrips("1.2.3")
  {
    RoundTripsNumeric("1.2.3", ["1", "2", "3"]);
  }

  /** Line 111: `10.20.30`. */
  lemma RoundTrips111()
    ensures RoundTrips("10.20.30")
  {
    RoundTripsNumeric("10.20.30", ["10", "20", "30"]);
  }

  /** Line 112: `1.1.2-prerelease+meta`. */
  lemma RoundTrips112()
    ensures RoundTrips("1.1.2" + "-" + "prerelease" + "+" + "meta")
  {
    var pre := ["prerelease"];
    assert !Decimal.IsDigit(pre[0][0]);
    var build := ["meta"];
    RoundTripsWithBoth("1.1.2", ["1", "1", "2"], "prerelease", pre, "meta", build);
  }

  /** Line 113: `1.1.2+meta`. */
  lemma RoundTrips113()
    ensures RoundTrips("1.1.2" + "+" + "meta")
  {
    var build := ["meta"];
    RoundTripsWithBuildMetadata("1.1.2", ["1", "1", "2"], "meta", build);
  }

  /** Line 114: `1.1.2+meta-valid`. */
  lemma RoundTrips114()
    ensures RoundTrips("1.1.2" + "+" + "meta-valid")
  {
    var build := ["meta-valid"];
    RoundTripsWithBuildMetadata("1.1.2", ["1", "1", "2"], "meta-valid", build);
  }

  /** Line 115: `1.0.0-alpha`. */
  lemma RoundTrips115()
    ensures RoundTrips("1.0.0" + "-" + "alpha")
  {
    var pre := ["alpha"];
    assert !Decimal.IsDigit(pre[0][0]);
    RoundTripsWithPreRelease("1.0.0", ["1", "0", "0"], "alpha", pre);
  }

  /** Line 116: `1.0.0-beta`. */
  lemma RoundTrips116()
    ensures RoundTrips("1.0.0" + "-" + "beta")
  {
    var pre := ["beta"];
    assert !Decimal.IsDigit(pre[0][0]);
    RoundTripsWithPreRelease("1.0.0", ["1", "0", "0"], "beta", pre);
  }

  /** Line 117: `1.0.0-alpha.beta`. */
  lemma RoundTrips117()
    ensures RoundTrips("1.0.0" + "-" + Strings.Join(["alpha", "beta"], '.'))
  {
    var pre := ["alpha", "beta"];
    assert !Decimal.IsDigit(pre[0][0]);
    assert !Decimal.IsDigit(pre[1][0]);
    RoundTripsWithPreRelease("1.0.0", ["1", "0", "0"], Strings.Join(["alpha", "beta"], '.'), pre);
  }

  /** Line 118: `1.0.0-alpha.beta.1`. */
  lemma RoundTrips118()
    ensures RoundTrips("1.0.0" + "-" + Strings.Join(["alpha", "beta", "1"], '.'))
  {
    var pre := ["alpha", "beta", "1"];
    assert !Decimal.IsDigit(pre[0][0]);
    assert !Decimal.IsDigit(pre[1][0]);
    RoundTripsWithPreRelease("1.0.0", ["1", "0", "0"], Strings.Join(["alpha", "beta", "1"], '.'), pre);
  }

  /** Line 119: `1.0.0-alpha.1`. */
  lemma RoundTrips119()
    ensures RoundTrips("1.0.0" + "-" + Strings.Join(["alpha", "1"], '.'))
  {
    var pre := ["alpha", "1"];
    assert !Decimal.IsDigit(pre[0][0]);
    RoundTripsWithPreRelease("1.0.0", ["1", "0", "0"], Strings.Join(["alpha", "1"], '.'), pre);
  }

  /** Line 120: `1.0.0-alpha0.valid`. */
  lemma RoundTrips120()
    ensures RoundTrips("1.0.0" + "-" + Strings.Join(["alpha0", "valid"], '.'))
  {
    var pre := ["alpha0", "valid"];
    assert !Decimal.IsDigit(pre[0][0]);
    assert !Decimal.IsDigit(pre[1][0]);
    RoundTripsWithPreRelease("1.0.0", ["1", "0", "0"], Strings.Join(["alpha0", "valid"], '.'), pre);
  }

  /** Line 121: `1.0.0-alpha.0valid`. */
  lemma RoundTrips121()
    ensures RoundTrips("1.0.0" + "-" + Strings.Join(["alpha", "0valid"], '.'))
  {
    var pre := ["alpha", "0valid"];
    assert !Decimal.IsDigit(pre[0][0]);
    assert !Decimal.IsDigit(pre[1][1]);
    RoundTripsWithPreRelease("1.0.0", ["1", "0", "0"], Strings.Join(["alpha", "0valid"], '.'), pre);
  }

  lemma PreRelease122()
    ensures PreReleasePart(Strings.Join(["alpha-a", "b-c-somethinglong"], '.'), ["alpha-a", "b-c-somethinglong"])
  {
    var pre := ["alpha-a", "b-c-somethinglong"];
    assert !Decimal.IsDigit(pre[0][0]);
    assert !Decimal.IsDigit(pre[1][0]);
  }

  lemma BuildMetadata122()
    ensures BuildMetadataPart(Strings.Join(["build", "1-aef", "1-its-okay"], '.'), ["build", "1-aef", "1-its-okay"])
  {
  }

  /** Line 122: `1.0.0-alpha-a.b-c-somethinglong+build.1-aef.1-its-okay`. */
  lemma RoundTrips122()
    ensures RoundTrips("1.0.0" + "-" + Strings.Join(["alpha-a", "b-c-somethinglong"], '.') + "+" + Strings.Join(["build", "1-aef", "1-its-okay"], '.'))
  {
    FieldsOneZeroZero();
    PreRelease122();
    BuildMetadata122();
    var pre := ["alpha-a", "b-c-somethinglong"];
    assert !Decimal.IsDigit(pre[0][0]);
    assert !Decimal.IsDigit(pre[1][0]);
    var build := ["build", "1-aef", "1-its-okay"];
    RoundTripsWithBoth("1.0.0", ["1", "0", "0"], Strings.Join(["alpha-a", "b-c-somethinglong"], '.'), pre, Strings.Join(["build", "1-aef", "1-its-okay"], '.'), build);
  }

  /** Line 123: `1.0.0-rc.1+build.1`. */
  lemma RoundTrips123()
    ensures RoundTrips("1.0.0" + "-" + Strings.Join(["rc", "1"], '.') + "+" + Strings.Join(["build", "1"], '.'))
  {
    var pre := ["rc", "1"];
    assert !Decimal.IsDigit(pre[0][0]);
    var build := ["build", "1"];
    RoundTripsWithBoth("1.0.0", ["1", "0", "0"], Strings.Join(["rc", "1"], '.'), pre, Strings.Join(["build", "1"], '.'), build);
  }

  /** Line 124: `2.0.0-rc.1+build.123`. */
  lemma RoundTrips124()
    ensures RoundTrips("2.0.0" + "-" + Strings.Join(["rc", "1"], '.') + "+" + Strings.Join(["build", "123"], '.'))
  {
    var pre := ["rc", "1"];
    assert !Decimal.IsDigit(pre[0][0]);
    var build := ["build", "123"];
    RoundTripsWithBoth("2.0.0", ["2", "0", "0"], Strings.Join(["rc", "1"], '.'), pre, Strings.Join(["build", "123"], '.'), build);
  }

  /** Line 125: `1.2.3-beta`. */
  lemma RoundTrips125()
    ensures RoundTrips("1.2.3" + "-" + "beta")
  {
    var pre := ["beta"];
    assert !Decimal.IsDigit(pre[0][0]);
    RoundTripsWithPreRelease("1.2.3", ["1", "2", "3"], "beta", pre);
  }

  /** Line 126: `10.2.3-DEV-SNAPSHOT`. */
  lemma RoundTrips126()
    ensures RoundTrips("10.2.3" + "-" + "DEV-SNAPSHOT")
  {
    var pre := ["DEV-SNAPSHOT"];
    assert !Decimal.IsDigit(pre[0][0]);
    RoundTripsWithPreRelease("10.2.3", ["10", "2", "3"], "DEV-SNAPSHOT", pre);
  }

  /** Line 127: `1.2.3-SNAPSHOT-123`. */
  lemma RoundTrips127()
    ensures RoundTrips("1.2.3" + "-" + "SNAPSHOT-123")
  {
    var pre := ["SNAPSHOT-123"];
    assert !Decimal.IsDigit(pre[0][0]);
    RoundTripsWithPreRelease("1.2.3", ["1", "2", "3"], "SNAPSHOT-123", pre);
  }

  /** Line 128: `1.0.0`. */
  lemma RoundTrips128()
    ensures RoundTrips("1.0.0")
  {
    RoundTripsNumeric("1.0.0", ["1", "0", "0"]);
  }

  /** Line 129: `2.0.0`. */
  lemma RoundTrips129()
    ensures RoundTrips("2.0.0")
  {
    RoundTripsNumeric("2.0.0", ["2", "0", "0"]);
  }

  /** Line 130: `1.1.7`. */
  lemma RoundTrips130()
    ensures RoundTrips("1.1.7")
  {
    RoundTripsNumeric("1.1.7", ["1", "1", "7"]);
  }

  /** Line 131: `2.0.0+build.1848`. */
  lemma RoundTrips131()
    ensures RoundTrips("2.0.0" + "+" + Strings.Join(["build", "1848"], '.'))
  {
    var build := ["build", "1848"];
    RoundTripsWithBuildMetadata("2.0.0", ["2", "0", "0"], Strings.Join(["build", "1848"], '.'), build);
  }

  /** Line 132: `2.0.1-alpha.1227`. */
  lemma RoundTrips132()
    ensures RoundTrips("2.0.1" + "-" + Strings.Join(["alpha", "1227"], '.'))
  {
    var pre := ["alpha", "1227"];
    assert !Decimal.IsDigit(pre[0][0]);
    RoundTripsWithPreRelease("2.0.1", ["2", "0", "1"], Strings.Join(["alpha", "1227"], '.'), pre);
  }

  /** Line 133: `1.0.0-alpha+beta`. */
  lemma RoundTrips133()
    ensures RoundTrips("1.0.0" + "-" + "alpha" + "+" + "beta")
  {
    var pre := ["alpha"];
    assert !Decimal.IsDigit(pre[0][0]);
    var build := ["beta"];
    RoundTripsWithBoth("1.0.0", ["1", "0", "0"], "alpha", pre, "beta", build);
  }

  lemma BuildMetadata134()
    ensures BuildMetadataPart("788", ["788"])
  {
  }

  /** Line 134: `1.2.3----RC-SNAPSHOT.12.9.1--.12+788`. */
  lemma RoundTrips134()
    ensures RoundTrips("1.2.3" + "-" + Strings.Join(["---RC-SNAPSHOT", "12", "9", "1--", "12"], '.') + "+" + "788")
  {
    FieldsOneTwoThree();
    PreReleaseRcSnapshot();
    BuildMetadata134();
    var pre := ["---RC-SNAPSHOT", "12", "9", "1--", "12"];
    assert !Decimal.IsDigit(pre[0][0]);
    assert !Decimal.IsDigit(pre[3][1]);
    var build := ["788"];
    RoundTripsWithBoth("1.2.3", ["1", "2", "3"], Strings.Join(["---RC-SNAPSHOT", "12", "9", "1--", "12"], '.'), pre, "788", build);
  }

  lemma PreRelease135()
    ensures PreReleasePart(Strings.Join(["---R-S", "12", "9", "1--", "12"], '.'), ["---R-S", "12", "9", "1--", "12"])
  {
    var pre := ["---R-S", "12", "9", "1--", "12"];
    assert !Decimal.IsDigit(pre[0][0]);
    assert !Decimal.IsDigit(pre[3][1]);
  }

  lemma BuildMetadata135()
    ensures BuildMetadataPart("meta", ["meta"])
  {
  }

  /** Line 135: `1.2.3----R-S.12.9.1--.12+meta`. */
  lemma RoundTrips135()
    ensures RoundTrips("1.2.3" + "-" + Strings.Join(["---R-S", "12", "9", "1--", "12"], '.') + "+" + "meta")
  {
    FieldsOneTwoThree();
    PreRelease135();
    BuildMetadata135();
    var pre := ["---R-S", "12", "9", "1--", "12"];
    assert !Decimal.IsDigit(pre[0][0]);
    assert !Decimal.IsDigit(pre[3][1]);
    var build := ["meta"];
    RoundTripsWithBoth("1.2.3", ["1", "2", "3"], Strings.Join(["---R-S", "12", "9", "1--", "12"], '.'), pre, "meta", build);
  }

  /** Line 136: `1.2.3----RC-SNAPSHOT.12.9.1--.12`. */
  lemma RoundTrips136()
    ensures RoundTrips("1.2.3" + "-" + Strings.Join(["---RC-SNAPSHOT", "12", "9", "1--", "12"], '.'))
  {
    FieldsOneTwoThree();
    PreReleaseRcSnapshot();
    var pre := ["---RC-SNAPSHOT", "12", "9", "1--", "12"];
    assert !Decimal.IsDigit(pre[0][0]);
    assert !Decimal.IsDigit(pre[3][1]);
    RoundTripsWithPreRelease("1.2.3", ["1", "2", "3"], Strings.Join(["---RC-SNAPSHOT", "12", "9", "1--", "12"], '.'), pre);
  }

  lemma BuildMetadata137()
    ensures BuildMetadataPart(Strings.Join(["0", "build", "1-rc", "10000aaa-kk-0", "1"], '.'), ["0", "build", "1-rc", "10000aaa-kk-0", "1"])
  {
  }

  /** Line 137: `1.0.0+0.build.1-rc.10000aaa-kk-0.1`. */
  lemma RoundTrips137()
    ensures RoundTrips("1.0.0" + "+" + Strings.Join(["0", "build", "1-rc", "10000aaa-kk-0", "1"], '.'))
  {
    FieldsOneZeroZero();
    BuildMetadata137();
    var build := ["0", "build", "1-rc", "10000aaa-kk-0", "1"];
    RoundTripsWithBuildMetadata("1.0.0", ["1", "0", "0"], Strings.Join(["0", "build", "1-rc", "10000aaa-kk-0", "1"], '.'), build);
  }

  /** Line 138: `99999999999999999999999.999999999999999999.99999999999999999`. */
  lemma RoundTrips138()
    ensures RoundTrips(Strings.Join(["99999999999999999999999", "999999999999999999", "99999999999999999"], '.'))
  {
    RoundTripsNumeric(Strings.Join(["99999999999999999999999", "999999999999999999", "99999999999999999"], '.'), ["99999999999999999999999", "999999999999999999", "99999999999999999"]);
  }

  /** Line 139: `1.0.0-0A.is.legal`. */
  lemma RoundTrips139()
    ensures RoundTrips("1.0.0" + "-" + Strings.Join(["0A", "is", "legal"], '.'))
  {
    var pre := ["0A", "is", "legal"];
    assert !Decimal.IsDigit(pre[0][1]);
    assert !Decimal.IsDigit(pre[1][0]);
    assert !Decimal.IsDigit(pre[2][0]);
    RoundTripsWithPreRelease("1.0.0", ["1", "0", "0"], Strings.Join(["0A", "is", "legal"], '.'), pre);
  }
}
