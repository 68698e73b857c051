# ergebnis/version in Dafny

A model of the value objects of the PHP library `ergebnis/version`, which
parses, prints, bumps and compares Semantic Versioning 2.0.0 version strings.

- **`Minor`** (`Minor.dfy`) holds the numeric field `src/Minor.php`
  implements. It is an immutable value holding the decimal text of a
  non-negative integer with no leading zero (item 2 of Semantic Versioning
  2.0.0).
  - The factories `fromInt` and `fromString` return a `Result` instead of
    throwing `InvalidMinor`.
  - `bump` is exact `+1`. It has an explicit `PHP_INT_MAX` branch where the
    bcmath path is taken. Whether bcmath is loaded is a boolean parameter.
  - PHP's `(int)` cast is modelled as written (`CastToInt`). It caps at
    `PHP_INT_MAX`, except past the double range, where it yields 0.
    `BumpAsWritten` is `bump` on that cast, and Findings below says where it
    departs from `Bump`.
  - `compare` orders by numeric magnitude. That is what PHP 8's `<=>` does
    on two numeric strings, except in the corner case named under Left out.
- **`Version`** (`Version.dfy`) is the full grammar
  `MAJOR.MINOR.PATCH[-PRERELEASE][+BUILD]`. It holds three `Minor` fields
  plus the `PreRelease` section (`PreRelease.dfy`, item 9) and the
  `BuildMetadata` section (`BuildMetadata.dfy`, item 10).
  - `Version.FromString` is the total parser and `Version.ToString` its
    printer. The parser accepts exactly the strings of valid versions and
    prints them back unchanged.
  - `Equals` is textual equality.
  - Pre-release precedence follows section 11.4 of Semantic Versioning 2.0.0.
- **`VersionTest`** (`VersionTest.dfy`) states every accept and reject
  vector of `test/Unit/VersionTest.php` as a lemma, named after the line that
  lists the vector.
- **Helper modules:**
  - `Wrappers`: `Result` and `Option`.
  - `Exception`: the error kinds.
  - `Strings`: first occurrence, split and join on one character, and
    lexical order.
  - `Decimal`: digit strings, their values and renderings, and magnitude
    comparison without a width limit.
  - `Identifier`: the identifier alphabet and the two identifier grammars.

The classes `Version`, `PreRelease`, `BuildMetadata`, `Major` and `Patch`
have no PHP source in this model.
- Their behaviour comes from test/Unit/VersionTest.php and
  test/Unit/PreReleaseTest.php and from Semantic Versioning 2.0.0.
- Because `Major` and `Patch` are not modelled as source, all three numeric
  fields of a version reuse `Minor`.

## Model

| member | source | states |
|---|---|---|
| Minor.FromInt | src/Minor.php:31-38 | fails, with `InvalidMinor`, exactly when the integer is negative; otherwise yields a valid field whose digits denote the integer |
| Minor.FromString | src/Minor.php:43-50 | an accepted string is stored verbatim and is a valid field; every failure is `InvalidMinor` |
| Minor.FromStringAcceptsExactlyRenderings | src/Minor.php:22 | the field grammar (zero, or a nonzero digit followed by digits, matching the whole string) accepts a string exactly when it is the decimal rendering of some natural number |
| Decimal.ToDecimal | src/Minor.php:37 | PHP's `(string)` cast of a non-negative int; it has no contract of its own, and `Decimal.ToDecimalCorrect` proves the text canonical and denoting `n` |
| Decimal.ToDecimalCorrect | src/Minor.php:37 | the rendering of every natural `n` is a canonical digit string whose value is `n` |
| Decimal.CanonicalIffRendering | src/Minor.php:22 | a digit string has no leading zero and is non-empty exactly when it is `ToDecimal(n)` for some natural `n` |
| Minor.FromStringToString | src/Minor.php:49-55 | `toString` of an accepted field returns the string it was built from |
| Minor.FromIntToString | src/Minor.php:37 | for `n >= 0`, `toString(fromInt(n))` is the decimal rendering of `n`, and `fromString` of that text gives the same field back |
| Minor.ToString | src/Minor.php:52-55 | `toString` returns the stored text, and `fromString` of it rebuilds the same field |
| Minor.CastToInt | src/Minor.php:62 | the definition of PHP's `(int)` cast of a digit string (no independent reference; the claims rest on `BumpAsWritten` and `AsWrittenBumpRestartsAtOne`): exact up to `PHP_INT_MAX`, `PHP_INT_MAX` from there up to the double-overflow bound 2^1024 - 2^970, and 0 at or above it |
| Minor.BcAddOne | src/Minor.php:69-72 | `bcadd($value, '1')` yields the canonical decimal text of the value plus one |
| Minor.Bump | src/Minor.php:60-76 | bump as intended: fails, with `ExtensionMissing`, exactly when the value is at least `PHP_INT_MAX` and bcmath is not loaded; otherwise the result is a valid field whose value is the old value plus one |
| Minor.BumpAsWritten | src/Minor.php:60-76 | bump as written, branching on the `(int)` cast: below the double-overflow bound it is exactly `Bump` |
| Minor.AsWrittenBumpRestartsAtOne | src/Minor.php:62-75 | at or above the double-overflow bound the cast yields 0, so bump as written returns `"1"`, with or without bcmath, which differs from `Bump` |
| Minor.BumpIsCanonicalSuccessor | src/Minor.php:69-75 | the bumped field's text is the canonical rendering of the successor and parses back to the same field |
| Minor.BumpBelowMaxNeverFails | src/Minor.php:62-66 | below `PHP_INT_MAX`, bump succeeds, and its result does not depend on whether bcmath is loaded |
| Minor.Compare | src/Minor.php:78-81 | the result is the three-way comparison of the two fields' numeric values |
| Decimal.CompareDecimalIsNumeric | src/Minor.php:80 | length-then-digits comparison of two canonical digit strings equals the comparison of the numbers they denote |
| Minor.CompareIsAntisymmetric | src/Minor.php:80 | `compare` is 0 exactly for equal fields, and swapping the operands negates it |
| Minor.CompareIsTransitive | src/Minor.php:80 | `compare` is transitive |
| Minor.CompareByMagnitude | src/Minor.php:80 | `"9"` compares below `"10"` and `"10"` above `"9"`, unlike their lexical order |
| Minor.FromStringAsWritten | src/Minor.php:22 | the pattern as written: every rejection is `InvalidMinor`, every canonical string is accepted and stored verbatim, and on a string not ending in a newline it decides as `FromString` does; with `AsWrittenAcceptsTrailingNewline` and `AsWrittenAcceptsOnlyOneNewline` the accepted set is the canonical strings plus a canonical string followed by one newline |
| Minor.AsWrittenAcceptsOnlyOneNewline | src/Minor.php:22 | a string the as-written pattern lets through that is not canonical is exactly one canonical string followed by one final newline |
| Minor.AsWrittenAcceptsTrailingNewline | src/Minor.php:22 | as written, a canonical string followed by a newline is accepted and stored, although it is not a valid field and the intended `FromString` rejects it |
| PreRelease.FromString | test/Unit/PreReleaseTest.php:27-41 | an accepted string is a valid pre-release and is stored verbatim; every failure is `InvalidPreRelease` |
| PreRelease.FromStringToString | test/Unit/PreReleaseTest.php:35-41 | `toString` of an accepted pre-release returns the string it was built from |
| PreRelease.AcceptsJoinedIdentifiers | test/Unit/PreReleaseTest.php:35-41 | a non-empty list of valid pre-release identifiers joined with dots is accepted, and splitting it gives the list back |
| PreRelease.AcceptedIsJoinedIdentifiers | test/Unit/PreReleaseTest.php:35-41 | conversely, an accepted non-empty string splits into at least one valid identifier, and joining the pieces rebuilds it |
| PreRelease.ToString | test/Unit/PreReleaseTest.php:40 | `toString` returns the stored text, and `fromString` of it rebuilds the same value |
| Identifier.SectionAlphabet | test/Unit/VersionTest.php:80-81 | a section (pre-release or build) whose identifiers are all non-empty runs of `[0-9A-Za-z-]` uses only that alphabet and dots, so never a second `+` |
| PreRelease.RejectsInvalidIdentifier | test/Unit/PreReleaseTest.php:27-33 | a dotted section with one identifier that is empty, outside the alphabet, or numeric with a leading zero is rejected with `InvalidPreRelease` |
| PreRelease.Empty | test/Unit/PreReleaseTest.php:43-48 | `empty()` stringifies to `""` and is what `fromString("")` builds |
| PreRelease.Equals | test/Unit/PreReleaseTest.php:62-80 | `equals` holds exactly when the two values are the same |
| PreRelease.EqualsIffSameString | test/Unit/PreReleaseTest.php:62-80 | two accepted pre-releases are `equals` exactly when they were built from the same string |
| PreRelease.Compare | test/Unit/PreReleaseTest.php:50-60 | `compare` yields -1, 0 or 1 (section 11.4 of Semantic Versioning 2.0.0, with no pre-release ranked highest); its order is proved in the lemmas below |
| PreRelease.CompareIdentifiers | test/Unit/PreReleaseTest.php:50-60 | one identifier against another yields -1, 0 or 1; two numeric identifiers compare by the numbers they denote (section 11.4.1), and a numeric identifier is below a non-numeric one (section 11.4.3) |
| PreRelease.CompareIdentifierLists | test/Unit/PreReleaseTest.php:50-60 | identifier lists compare left to right and yield -1, 0 or 1 |
| PreRelease.CompareIdentifiersProperties | test/Unit/PreReleaseTest.php:50-60 | identifier comparison yields -1, 0 or 1, is 0 only for equal identifiers, and is antisymmetric |
| PreRelease.CompareIdentifierListsProperties | test/Unit/PreReleaseTest.php:50-60 | identifier-list comparison yields -1, 0 or 1, is 0 only for equal lists, and is antisymmetric |
| PreRelease.CompareIdentifierListsTransitive | test/Unit/PreReleaseTest.php:50-60 | identifier-list comparison is transitive |
| PreRelease.CompareIsAntisymmetric | test/Unit/PreReleaseTest.php:50-60 | `compare` of two valid pre-releases is a three-way result, 0 exactly for equal values, and antisymmetric |
| PreRelease.CompareIsTransitive | test/Unit/PreReleaseTest.php:50-60 | `compare` is transitive |
| PreRelease.EmptyIsGreatest | test/Unit/PreReleaseTest.php:50-60 | the empty pre-release (a normal version) has higher precedence than any non-empty one (item 11.3 of Semantic Versioning 2.0.0) |
| PreRelease.PrefixIsLower | test/Unit/PreReleaseTest.php:50-60 | a proper prefix of identifiers has lower precedence than the longer list (section 11.4.4) |
| PreRelease.CompareOnIdentifiers | test/Unit/PreReleaseTest.php:50-60 | `compare` of two dotted identifier lists is the comparison of the lists themselves |
| PreRelease.ExampleAlphaBelowAlpha1 | test/Unit/PreReleaseTest.php:50-60 | `alpha` < `alpha.1` |
| PreRelease.ExampleAlpha1BelowAlphaBeta | test/Unit/PreReleaseTest.php:50-60 | `alpha.1` < `alpha.beta`: a numeric identifier is below an alphanumeric one |
| PreRelease.ExampleAlphaBetaBelowBeta | test/Unit/PreReleaseTest.php:50-60 | `alpha.beta` < `beta`: alphanumeric identifiers compare in ASCII order |
| PreRelease.ExampleBetaBelowBeta2 | test/Unit/PreReleaseTest.php:50-60 | `beta` < `beta.2` |
| PreRelease.ExampleBeta2BelowBeta11 | test/Unit/PreReleaseTest.php:50-60 | `beta.2` < `beta.11`: numeric identifiers compare by magnitude |
| PreRelease.ExampleBeta11BelowRc1 | test/Unit/PreReleaseTest.php:50-60 | `beta.11` < `rc.1` |
| PreRelease.ExampleRc1BelowRelease | test/Unit/PreReleaseTest.php:50-60 | `rc.1` is below no pre-release at all |
| BuildMetadata.FromString | test/Unit/VersionTest.php:113-114 | an accepted build section is valid and stored verbatim; every failure is `InvalidBuildMetadata` |
| BuildMetadata.Empty | test/Unit/VersionTest.php:109-111 | the empty build section prints as `""` and is what `fromString("")` builds |
| BuildMetadata.AcceptsJoinedIdentifiers | test/Unit/VersionTest.php:134-137 | a non-empty list of build identifiers (leading zeros and hyphens allowed) joined with dots is accepted, and splitting gives the list back |
| BuildMetadata.AcceptedIsJoinedIdentifiers | test/Unit/VersionTest.php:134-137 | conversely, an accepted non-empty build section splits into at least one valid identifier, and joining the pieces rebuilds it |
| BuildMetadata.ToString | test/Unit/VersionTest.php:97 | the stored text, from which `fromString` rebuilds the same build section |
| BuildMetadata.Equals | test/Unit/VersionTest.php:149-167 | textual equality of build sections, which on valid values is identity; `Version.Equals`, which these lines call, compares the whole text, build section included |
| BuildMetadata.RejectsInvalidIdentifier | test/Unit/VersionTest.php:48 | one empty identifier or one character outside `[0-9A-Za-z-]` makes the build section invalid |
| Version.FromString | test/Unit/VersionTest.php:92-98 | an accepted string yields a valid version whose `toString` is that string; every failure is `InvalidVersion` |
| Version.ToString | test/Unit/VersionTest.php:97 | `toString`: the three fields between dots, then `-` and the pre-release and `+` and the build metadata when they are not empty; it has no contract of its own, and `Version.ToStringFromString` proves it the inverse of `fromString` |
| Version.ToStringFromString | test/Unit/VersionTest.php:92-98 | every valid version parses back from its own string, to itself |
| Version.FromStringAcceptsExactlyVersionStrings | test/Unit/VersionTest.php:27-33 | `fromString` accepts a string exactly when it is the string of some valid version; all others are rejected |
| Version.AcceptsParts | test/Unit/VersionTest.php:108-139 | three canonical fields, optionally followed by `-` and valid pre-release identifiers and by `+` and valid build identifiers, make a string that parses and prints back unchanged |
| Version.RejectsFieldCount | test/Unit/VersionTest.php:44-45 | a numeric part of other than three dot-separated fields, before the first `-` or `+`, is rejected (also `"1.2.3.DEV"` and `"1.2-SNAPSHOT"` at lines 74-75) |
| Version.RejectsInvalidField | test/Unit/VersionTest.php:71-73 | a numeric field with a leading zero or any non-digit is rejected |
| Version.RejectsInvalidPreRelease | test/Unit/VersionTest.php:62-70 | an empty or invalid pre-release after the first `-` is rejected, whatever build section follows |
| Version.RejectsPreReleaseIdentifier | test/Unit/VersionTest.php:46-47 | one bad pre-release identifier (empty, outside the alphabet, or numeric with a leading zero) rejects the version |
| Version.RejectsInvalidBuildMetadata | test/Unit/VersionTest.php:48 | an empty or invalid build section after the first `+` is rejected |
| Version.RejectsBuildIdentifier | test/Unit/VersionTest.php:80-81 | one bad build identifier, including one holding a second `+`, rejects the version |
| Version.Equals | test/Unit/VersionTest.php:149-157 | on valid versions `equals` is identity: distinct versions never share a string |
| Version.EqualsIffSameString | test/Unit/VersionTest.php:149-167 | two parsed versions are `equals` exactly when they were parsed from the same string |
| VersionTest.Rejects44 | test/Unit/VersionTest.php:44 | `Version.FromString("1")` is `InvalidVersion`: the text before the first `-` or `+`, `1`, holds 1 dot-separated field, not three |
| VersionTest.Rejects45 | test/Unit/VersionTest.php:45 | `Version.FromString("1.2")` is `InvalidVersion`: the text before the first `-` or `+`, `1.2`, holds 2 dot-separated fields, not three |
| VersionTest.Rejects46 | test/Unit/VersionTest.php:46 | `Version.FromString("1.2.3-0123")` is `InvalidVersion`: its pre-release holds numeric identifier `0123` with a leading zero |
| VersionTest.Rejects47 | test/Unit/VersionTest.php:47 | `Version.FromString("1.2.3-0123.0123")` is `InvalidVersion`: its pre-release holds numeric identifier `0123` with a leading zero |
| VersionTest.Rejects48 | test/Unit/VersionTest.php:48 | `Version.FromString("1.1.2+.123")` is `InvalidVersion`: its build metadata holds the empty identifier |
| VersionTest.Rejects49 | test/Unit/VersionTest.php:49 | `Version.FromString("+invalid")` is `InvalidVersion`: the text before the first `-` or `+`, the empty string, holds 1 dot-separated field, not three |
| VersionTest.Rejects50 | test/Unit/VersionTest.php:50 | `Version.FromString("-invalid")` is `InvalidVersion`: the text before the first `-` or `+`, the empty string, holds 1 dot-separated field, not three |
| VersionTest.Rejects51 | test/Unit/VersionTest.php:51 | `Version.FromString("-invalid+invalid")` is `InvalidVersion`: the text before the first `-` or `+`, the empty string, holds 1 dot-separated field, not three |
| VersionTest.Rejects52 | test/Unit/VersionTest.php:52 | `Version.FromString("-invalid.01")` is `InvalidVersion`: the text before the first `-` or `+`, the empty string, holds 1 dot-separated field, not three |
| VersionTest.Rejects53 | test/Unit/VersionTest.php:53 | `Version.FromString("alpha")` is `InvalidVersion`: the text before the first `-` or `+`, `alpha`, holds 1 dot-separated field, not three |
| VersionTest.Rejects54 | test/Unit/VersionTest.php:54 | `Version.FromString("alpha.beta")` is `InvalidVersion`: the text before the first `-` or `+`, `alpha.beta`, holds 2 dot-separated fields, not three |
| VersionTest.Rejects55 | test/Unit/VersionTest.php:55 | `Version.FromString("alpha.beta.1")` is `InvalidVersion`: its numeric field `alpha` is not a canonical decimal (zero, or a nonzero digit then digits) |
| VersionTest.Rejects56 | test/Unit/VersionTest.php:56 | `Version.FromString("alpha.1")` is `InvalidVersion`: the text before the first `-` or `+`, `alpha.1`, holds 2 dot-separated fields, not three |
| VersionTest.Rejects57 | test/Unit/VersionTest.php:57 | `Version.FromString("alpha+beta")` is `InvalidVersion`: the text before the first `-` or `+`, `alpha`, holds 1 dot-separated field, not three |
| VersionTest.Rejects58 | test/Unit/VersionTest.php:58 | `Version.FromString("alpha_beta")` is `InvalidVersion`: the text before the first `-` or `+`, `alpha_beta`, holds 1 dot-separated field, not three |
| VersionTest.Rejects59 | test/Unit/VersionTest.php:59 | `Version.FromString("alpha.")` is `InvalidVersion`: the text before the first `-` or `+`, `alpha.`, holds 2 dot-separated fields, not three |
| VersionTest.Rejects60 | test/Unit/VersionTest.php:60 | `Version.FromString("alpha..")` is `InvalidVersion`: its numeric field `alpha` is not a canonical decimal (zero, or a nonzero digit then digits) |
| VersionTest.Rejects61 | test/Unit/VersionTest.php:61 | `Version.FromString("beta")` is `InvalidVersion`: the text before the first `-` or `+`, `beta`, holds 1 dot-separated field, not three |
| VersionTest.Rejects62 | test/Unit/VersionTest.php:62 | `Version.FromString("1.0.0-alpha_beta")` is `InvalidVersion`: its pre-release holds identifier `alpha_beta`, whose `_` is outside `[0-9A-Za-z-]` |
| VersionTest.Rejects63 | test/Unit/VersionTest.php:63 | `Version.FromString("-alpha.")` is `InvalidVersion`: the text before the first `-` or `+`, the empty string, holds 1 dot-separated field, not three |
| VersionTest.Rejects64 | test/Unit/VersionTest.php:64 | `Version.FromString("1.0.0-alpha..")` is `InvalidVersion`: its pre-release holds the empty identifier |
| VersionTest.Rejects65 | test/Unit/VersionTest.php:65 | `Version.FromString("1.0.0-alpha..1")` is `InvalidVersion`: its pre-release holds the empty identifier |
| VersionTest.Rejects66 | test/Unit/VersionTest.php:66 | `Version.FromString("1.0.0-alpha...1")` is `InvalidVersion`: its pre-release holds the empty identifier |
| VersionTest.Rejects67 | test/Unit/VersionTest.php:67 | `Version.FromString("1.0.0-alpha....1")` is `InvalidVersion`: its pre-release holds the empty identifier |
| VersionTest.Rejects68 | test/Unit/VersionTest.php:68 | `Version.FromString("1.0.0-alpha.....1")` is `InvalidVersion`: its pre-release holds the empty identifier |
| VersionTest.Rejects69 | test/Unit/VersionTest.php:69 | `Version.FromString("1.0.0-alpha......1")` is `InvalidVersion`: its pre-release holds the empty identifier |
| VersionTest.Rejects70 | test/Unit/VersionTest.php:70 | `Version.FromString("1.0.0-alpha.......1")` is `InvalidVersion`: its pre-release holds the empty identifier |
| VersionTest.Rejects71 | test/Unit/VersionTest.php:71 | `Version.FromString("01.1.1")` is `InvalidVersion`: its numeric field `01` is not a canonical decimal (zero, or a nonzero digit then digits) |
| VersionTest.Rejects72 | test/Unit/VersionTest.php:72 | `Version.FromString("1.01.1")` is `InvalidVersion`: its numeric field `01` is not a canonical decimal (zero, or a nonzero digit then digits) |
| VersionTest.Rejects73 | test/Unit/VersionTest.php:73 | `Version.FromString("1.1.01")` is `InvalidVersion`: its numeric field `01` is not a canonical decimal (zero, or a nonzero digit then digits) |
| VersionTest.Rejects74 | test/Unit/VersionTest.php:74 | `Version.FromString("1.2.3.DEV")` is `InvalidVersion`: the text before the first `-` or `+`, `1.2.3.DEV`, holds 4 dot-separated fields, not three |
| VersionTest.Rejects75 | test/Unit/VersionTest.php:75 | `Version.FromString("1.2-SNAPSHOT")` is `InvalidVersion`: the text before the first `-` or `+`, `1.2`, holds 2 dot-separated fields, not three |
| VersionTest.Rejects76 | test/Unit/VersionTest.php:76 | `Version.FromString("1.2.31.2.3----RC-SNAPSHOT.12.09.1--..12+788")` is `InvalidVersion`: the text before the first `-` or `+`, `1.2.31.2.3`, holds 5 dot-separated fields, not three |
| VersionTest.Rejects77 | test/Unit/VersionTest.php:77 | `Version.FromString("1.2-RC-SNAPSHOT")` is `InvalidVersion`: the text before the first `-` or `+`, `1.2`, holds 2 dot-separated fields, not three |
| VersionTest.Rejects78 | test/Unit/VersionTest.php:78 | `Version.FromString("-1.0.3-gamma+b7718")` is `InvalidVersion`: the text before the first `-` or `+`, the empty string, holds 1 dot-separated field, not three |
| VersionTest.Rejects79 | test/Unit/VersionTest.php:79 | `Version.FromString("+justmeta")` is `InvalidVersion`: the text before the first `-` or `+`, the empty string, holds 1 dot-separated field, not three |
| VersionTest.Rejects80 | test/Unit/VersionTest.php:80 | `Version.FromString("9.8.7+meta+meta")` is `InvalidVersion`: its build metadata holds identifier `meta+meta`, whose `+` is outside `[0-9A-Za-z-]` |
| VersionTest.Rejects81 | test/Unit/VersionTest.php:81 | `Version.FromString("9.8.7-whatever+meta+meta")` is `InvalidVersion`: its build metadata holds identifier `meta+meta`, whose `+` is outside `[0-9A-Za-z-]` |
| VersionTest.Rejects82 | test/Unit/VersionTest.php:82 | `Version.FromString("99999999999999999999999.999999999999999999.99999999999999999----RC-SNAPSHOT.12.09.1--------------------------------..12")` is `InvalidVersion`: its pre-release holds the empty identifier |
| VersionTest.RoundTrips109 | test/Unit/VersionTest.php:109 | `0.0.4` parses and `toString` returns it unchanged |
| VersionTest.RoundTrips110 | test/Unit/VersionTest.php:110 | `1.2.3` parses and `toString` returns it unchanged |
| VersionTest.RoundTrips111 | test/Unit/VersionTest.php:111 | `10.20.30` parses and `toString` returns it unchanged |
| VersionTest.RoundTrips112 | test/Unit/VersionTest.php:112 | `1.1.2-prerelease+meta` parses and `toString` returns it unchanged |
| VersionTest.RoundTrips113 | test/Unit/VersionTest.php:113 | `1.1.2+meta` parses and `toString` returns it unchanged |
| VersionTest.RoundTrips114 | test/Unit/VersionTest.php:114 | `1.1.2+meta-valid` parses and `toString` returns it unchanged |
| VersionTest.RoundTrips115 | test/Unit/VersionTest.php:115 | `1.0.0-alpha` parses and `toString` returns it unchanged |
| VersionTest.RoundTrips116 | test/Unit/VersionTest.php:116 | `1.0.0-beta` parses and `toString` returns it unchanged |
| VersionTest.RoundTrips117 | test/Unit/VersionTest.php:117 | `1.0.0-alpha.beta` parses and `toString` returns it unchanged |
| VersionTest.RoundTrips118 | test/Unit/VersionTest.php:118 | `1.0.0-alpha.beta.1` parses and `toString` returns it unchanged |
| VersionTest.RoundTrips119 | test/Unit/VersionTest.php:119 | `1.0.0-alpha.1` parses and `toString` returns it unchanged |
| VersionTest.RoundTrips120 | test/Unit/VersionTest.php:120 | `1.0.0-alpha0.valid` parses and `toString` returns it unchanged |
| VersionTest.RoundTrips121 | test/Unit/VersionTest.php:121 | `1.0.0-alpha.0valid` parses and `toString` returns it unchanged |
| VersionTest.RoundTrips122 | test/Unit/VersionTest.php:122 | `1.0.0-alpha-a.b-c-somethinglong+build.1-aef.1-its-okay` parses and `toString` returns it unchanged |
| VersionTest.RoundTrips123 | test/Unit/VersionTest.php:123 | `1.0.0-rc.1+build.1` parses and `toString` returns it unchanged |
| VersionTest.RoundTrips124 | test/Unit/VersionTest.php:124 | `2.0.0-rc.1+build.123` parses and `toString` returns it unchanged |
| VersionTest.RoundTrips125 | test/Unit/VersionTest.php:125 | `1.2.3-beta` parses and `toString` returns it unchanged |
| VersionTest.RoundTrips126 | test/Unit/VersionTest.php:126 | `10.2.3-DEV-SNAPSHOT` parses and `toString` returns it unchanged |
| VersionTest.RoundTrips127 | test/Unit/VersionTest.php:127 | `1.2.3-SNAPSHOT-123` parses and `toString` returns it unchanged |
| VersionTest.RoundTrips128 | test/Unit/VersionTest.php:128 | `1.0.0` parses and `toString` returns it unchanged |
| VersionTest.RoundTrips129 | test/Unit/VersionTest.php:129 | `2.0.0` parses and `toString` returns it unchanged |
| VersionTest.RoundTrips130 | test/Unit/VersionTest.php:130 | `1.1.7` parses and `toString` returns it unchanged |
| VersionTest.RoundTrips131 | test/Unit/VersionTest.php:131 | `2.0.0+build.1848` parses and `toString` returns it unchanged |
| VersionTest.RoundTrips132 | test/Unit/VersionTest.php:132 | `2.0.1-alpha.1227` parses and `toString` returns it unchanged |
| VersionTest.RoundTrips133 | test/Unit/VersionTest.php:133 | `1.0.0-alpha+beta` parses and `toString` returns it unchanged |
| VersionTest.RoundTrips134 | test/Unit/VersionTest.php:134 | `1.2.3----RC-SNAPSHOT.12.9.1--.12+788` parses and `toString` returns it unchanged |
| VersionTest.RoundTrips135 | test/Unit/VersionTest.php:135 | `1.2.3----R-S.12.9.1--.12+meta` parses and `toString` returns it unchanged |
| VersionTest.RoundTrips136 | test/Unit/VersionTest.php:136 | `1.2.3----RC-SNAPSHOT.12.9.1--.12` parses and `toString` returns it unchanged |
| VersionTest.RoundTrips137 | test/Unit/VersionTest.php:137 | `1.0.0+0.build.1-rc.10000aaa-kk-0.1` parses and `toString` returns it unchanged |
| VersionTest.RoundTrips138 | test/Unit/VersionTest.php:138 | `99999999999999999999999.999999999999999999.99999999999999999` parses and `toString` returns it unchanged |
| VersionTest.RoundTrips139 | test/Unit/VersionTest.php:139 | `1.0.0-0A.is.legal` parses and `toString` returns it unchanged |

## Left out

- Minor.Compare: exact magnitude for all values, which is not quite what PHP 8's `<=>` does.
  - When both strings exceed `PHP_INT_MAX`, PHP compares them as doubles.
  - When the doubles are equal, PHP falls back to byte-wise string comparison, so it never calls two different strings equal.
  - The fallback agrees with magnitude on strings of equal length (`Decimal.LexIsNumericOnEqualLength`), but not always on strings of different length. For example, `"9999999999999999999" <=> "10000000000000000000"` is 1 in PHP, because both round to 1e19 and `'9'` is above `'1'`. `Minor.Compare` gives -1.
  - Double rounding is not modelled.
- Minor.Bump: `bcadd` is modelled as exact natural-number `+1`. The `extension_loaded('bcmath')` probe is the parameter `bcmathLoaded`. The bcmath library itself is a foreign call.
- Minor.BcAddOne: assumes bcmath's scale is 0, the default. `bcadd` is called without a scale, so a nonzero `bcmath.scale` setting or `bcscale()` call would make it return digits followed by a decimal point and zeros, which is not a valid field. That process-wide setting is not modelled.
- Minor.CastToInt: models a 64-bit PHP 8 build, where a string past the double range converts to INF and the `(int)` cast of a non-finite double is 0.
- `Minor.PHP_INT_MAX` is the 64-bit bound. A 32-bit PHP build is not modelled.
- Immutability and readonly `$value` are modelled by datatypes. `bump` builds a new value because a datatype cannot be changed.
- Exceptions are modelled as the error variants of `Exception.Error` returned in a `Result`. The exception classes and their messages are not modelled.
- Faker-generated inputs (`regexify`, `word`) in the `equals` tests are modelled as lemmas over all strings.
- Version.FromString: `Version.php` is not part of this model. The parser is reconstructed from the test vectors and from Semantic Versioning 2.0.0:
  - it cuts at the first `+`, then at the first `-`, then splits the numeric part at dots;
  - any string the grammar rejects is `InvalidVersion`.
- PreRelease.Compare: `PreReleaseProvider::valueOtherValueAndResult` is not part of this model, so there are no expected results to cite. Precedence is derived from section 11.4 of Semantic Versioning 2.0.0 and proved to be a three-way, antisymmetric, transitive order.
- PreRelease.FromString: accepts `""` as the empty pre-release, the value `empty()` returns. The provider's list of invalid pre-releases is not part of this model.
- `Major.php`, `Patch.php` and `BuildMetadata.php` are not part of this model. `Version` reuses `Minor` for all three numeric fields.
- Version precedence, version bumping and the other version-level operations are not exercised by test/Unit/VersionTest.php or test/Unit/PreReleaseTest.php and are not modelled.
- PHPUnit attributes, data-provider plumbing and the test helper trait have no behaviour to model.

## Findings

| source | as written | input that shows it | evidently intended | confidence | as-written member | corrected member |
|---|---|---|---|---|---|---|
| src/Minor.php:62-75 | the bcmath path is chosen by `(int) $this->value === PHP_INT_MAX`, but the cast of a digit string past the double range yields 0, not `PHP_INT_MAX` | a field of 310 digits, `1` followed by 309 zeros (10^309): bump returns `"1"` whatever bcmath's state | every value from `PHP_INT_MAX` on takes the exact bcmath path and bumps to its successor | not executed | Minor.AsWrittenBumpRestartsAtOne | Minor.BumpIsCanonicalSuccessor |
| src/Minor.php:22 | the pattern anchors with `$` and has no `D` modifier, so PCRE lets `$` match just before a final newline | `"1\n"` passes `fromString` and is stored with its newline | only whole-string matches of the field grammar are accepted | not executed | Minor.AsWrittenAcceptsTrailingNewline | Minor.FromStringAcceptsExactlyRenderings |
