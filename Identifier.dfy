/**
  Dot-separated identifiers of the pre-release and build-metadata sections
  (items 9 and 10 of Semantic Versioning 2.0.0).
*/
module Identifier {
  import Strings
  import Decimal

  /** The identifier alphabet `[0-9A-Za-z-]`. */
  predicate IsIdentChar(c: char) {
    '0' <= c <= '9' || 'A' <= c <= 'Z' || 'a' <= c <= 'z' || c == '-'
  }

  /** A non-empty run of `[0-9A-Za-z-]`. */
  predicate IsAlphanumeric(x: string) {
    |x| >= 1 && forall i :: 0 <= i < |x| ==> IsIdentChar(x[i])
  }

  /** An identifier made of digits only. */
  predicate IsNumeric(x: string) {
    |x| >= 1 && Decimal.AllDigits(x)
  }

  /** Pre-release identifiers: numeric ones must not carry a leading zero. */
  predicate IsPreReleaseIdentifier(x: string) {
    IsAlphanumeric(x) && (IsNumeric(x) ==> Decimal.IsCanonical(x))
  }

  /** Build identifiers: any non-empty run of the alphabet, leading zeros included. */
  predicate IsBuildIdentifier(x: string) {
    IsAlphanumeric(x)
  }

  /** The same alphabet as a set (all of it lies between `-` and `z`). */
  const IdentChars: set<char> := set c: char | '-' <= c <= 'z' && IsIdentChar(c)

  lemma IdentCharsIsAlphabet(c: char)
    ensures c in IdentChars <==> IsIdentChar(c)
  {
  }

  /** The identifiers of a section: its pieces between dots. */
  function Pieces(s: string): seq<string>
  {
    Strings.Split(s, '.')
  }

  /** A list of identifiers written out with dots; no identifiers at all is the empty section. */
  function Dotted(ids: seq<string>): string
  {
    if ids == [] then "" else Strings.Join(ids, '.')
  }

  /**
    Identifiers joined with dots split back into themselves, and the text is
    not empty, so it is not the empty section: what both sections' rejection
    rules rest on.
  */
  lemma PiecesOfDottedJoin(ids: seq<string>)
    requires |ids| >= 2 || (|ids| == 1 && ids[0] != "")
    requires forall i :: 0 <= i < |ids| ==> '.' !in ids[i]
    ensures Pieces(Strings.Join(ids, '.')) == ids
    ensures Strings.Join(ids, '.') != ""
  {
    Strings.SplitJoin(ids, '.');
    if |ids| >= 2 {
      Strings.JoinHoldsSeparator(ids, '.');
    }
  }

  /**
    A section whose pieces are all non-empty runs of the alphabet is written
    in that alphabet and dots; in particular it holds no `+`, so a second `+`
    never belongs to an accepted section.
  */
  lemma SectionAlphabet(s: string)
    requires forall i :: 0 <= i < |Pieces(s)| ==> IsAlphanumeric(Pieces(s)[i])
    ensures forall k :: 0 <= k < |s| ==> IsIdentChar(s[k]) || s[k] == '.'
  {
    var ids := Pieces(s);
    forall i, k | 0 <= i < |ids| && 0 <= k < |ids[i]|
      ensures ids[i][k] in IdentChars
    {
      IdentCharsIsAlphabet(ids[i][k]);
    }
    Strings.JoinChars(ids, '.', IdentChars);
    Strings.JoinSplit(s, '.');
    forall k | 0 <= k < |s|
      ensures IsIdentChar(s[k]) || s[k] == '.'
    {
      IdentCharsIsAlphabet(s[k]);
    }
  }
}
