/**
  The build-metadata section of a version: empty, or dot-separated non-empty
  identifiers over `[0-9A-Za-z-]`, leading zeros allowed (item 10 of Semantic
  Versioning 2.0.0). It takes no part in precedence.
*/
module BuildMetadata {
  import opened Wrappers
  import opened Exception
  import Strings
  import Identifier

  datatype BuildMetadata = BuildMetadata(value: string) {
    predicate Valid() {
      IsValid(value)
    }
  }

  predicate AllBuildIdentifiers(ids: seq<string>) {
    forall i :: 0 <= i < |ids| ==> Identifier.IsBuildIdentifier(ids[i])
  }

  /** The empty string (no build metadata), or identifiers each valid, between single dots. */
  predicate IsValid(s: string) {
    s == "" || AllBuildIdentifiers(Identifier.Pieces(s))
  }

  function FromString(s: string): (r: Result<BuildMetadata, Error>)
    ensures r.Ok? ==> r.value.Valid() && r.value.value == s
    ensures r.Err? ==> r.error == InvalidBuildMetadata
  {
    if IsValid(s) then Ok(BuildMetadata(s)) else Err(InvalidBuildMetadata)
  }

  function Empty(): (r: BuildMetadata)
    ensures ToString(r) == "" && FromString("") == Ok(r)
  {
    BuildMetadata("")
  }

  /** `toString`: the stored text, from which `fromString` rebuilds the same value. */
  function ToString(b: BuildMetadata): (s: string)
    ensures b.Valid() ==> FromString(s) == Ok(b)
  {
    b.value
  }

  /** Textual equality, which is equality of the values. */
  function Equals(a: BuildMetadata, b: BuildMetadata): (r: bool)
    ensures r <==> a == b
  {
    a.value == b.value
  }

  /** The grammar `ident ("." ident)*`, with the identifiers recovered by splitting. */
  lemma AcceptsJoinedIdentifiers(ids: seq<string>)
    requires |ids| >= 1 && AllBuildIdentifiers(ids)
    ensures FromString(Strings.Join(ids, '.')).Ok?
    ensures Identifier.Pieces(Strings.Join(ids, '.')) == ids
  {
    Strings.SplitJoin(ids, '.');
  }

  /** Conversely, every accepted non-empty string is such a join. */
  lemma AcceptedIsJoinedIdentifiers(s: string)
    requires FromString(s).Ok? && s != ""
    ensures |Identifier.Pieces(s)| >= 1 && AllBuildIdentifiers(Identifier.Pieces(s))
    ensures Strings.Join(Identifier.Pieces(s), '.') == s
  {
    Strings.JoinSplit(s, '.');
  }

  /** One empty identifier or one character outside the alphabet spoils the whole section. */
  lemma RejectsInvalidIdentifier(ids: seq<string>, bad: nat)
    requires |ids| >= 2 || (|ids| == 1 && ids[0] != "")
    requires forall i :: 0 <= i < |ids| ==> '.' !in ids[i]
    requires bad < |ids| && !Identifier.IsBuildIdentifier(ids[bad])
    ensures FromString(Strings.Join(ids, '.')) == Err(InvalidBuildMetadata)
  {
    Identifier.PiecesOfDottedJoin(ids);
  }
}
