/**
 * Path utilities of lilac/data/dataset_utils.py: the cardinality prefix of a
 * path, sibling output paths and the common ancestor of two paths.
 *
 * A path is a tuple of string segments; the segment "*" (PATH_WILDCARD in
 * lilac) stands for every element of a repeated field. As in the source, a
 * segment is a wildcard exactly when it equals that string.
 */
module Paths {
  import opened Wrappers

  const PathWildcard: string := "*"

  type Path = seq<string>

  /**
   * The last index whose segment is a wildcard (when `wildcard` holds) or is
   * not a wildcard (when it does not), and 0 when there is no such index.
   */
  function LastMatch(p: Path, wildcard: bool): (r: nat)
    ensures r == 0 || r < |p|
    ensures r > 0 ==> (p[r] == PathWildcard) == wildcard
    ensures forall j :: r < j < |p| ==> (p[j] == PathWildcard) != wildcard
  {
    if |p| == 0 then 0
    else if (p[|p| - 1] == PathWildcard) == wildcard then |p| - 1
    else LastMatch(p[..|p| - 1], wildcard)
  }

  lemma LastMatchStep(p: Path, i: nat, wildcard: bool)
    requires i < |p|
    ensures LastMatch(p[..i + 1], wildcard)
            == if (p[i] == PathWildcard) == wildcard then i else LastMatch(p[..i], wildcard)
  {
  }

  /** The part of a path that comes strictly before its last wildcard. */
  function CardinalityPrefixOf(p: Path): Path
  {
    p[..LastMatch(p, true)]
  }

  /** `_cardinality_prefix`: remembers the index of the last wildcard seen. */
  method CardinalityPrefix(path: Path) returns (prefix: Path)
    ensures prefix <= path
    ensures prefix == [] || |prefix| < |path|
    ensures prefix != [] ==> path[|prefix|] == PathWildcard
    ensures forall j :: |prefix| < j < |path| ==> path[j] != PathWildcard
    ensures prefix == CardinalityPrefixOf(path)
  {
    var wildcardIdx := 0;
    for i := 0 to |path|
      invariant wildcardIdx == LastMatch(path[..i], true)
    {
      LastMatchStep(path, i, true);
      if path[i] == PathWildcard {
        wildcardIdx := i;
      }
    }
    assert path[..|path|] == path;
    prefix := path[..wildcardIdx];
  }

  /** The relation that `paths_have_same_cardinality` decides. */
  predicate SameCardinality(p1: Path, p2: Path)
  {
    CardinalityPrefixOf(p1) == CardinalityPrefixOf(p2)
  }

  /** `paths_have_same_cardinality`: compares the two cardinality prefixes. */
  method PathsHaveSameCardinality(path1: Path, path2: Path) returns (same: bool)
    ensures same <==> SameCardinality(path1, path2)
  {
    var prefix1 := CardinalityPrefix(path1);
    var prefix2 := CardinalityPrefix(path2);
    same := prefix1 == prefix2;
  }

  /** Renames a segment for a sibling column: `<segment>_<suffix>`. */
  function SiblingSegment(segment: string, suffix: string): string
  {
    segment + "_" + suffix
  }

  /**
   * `get_sibling_output_path`: renames the last segment that is not a
   * wildcard (segment 0 when every segment is a wildcard). An empty path
   * raises IndexError.
   */
  method SiblingOutputPath(path: Path, suffix: string) returns (r: Result<Path>)
    ensures r.Err? <==> path == []
    ensures r.Err? ==> r.error == IndexError
    ensures r.Ok? ==> |r.value| == |path|
    ensures r.Ok? ==> var k := LastMatch(path, false);
      && r.value[k] == SiblingSegment(path[k], suffix)
      && r.value[k] != PathWildcard
      && (forall j :: 0 <= j < |path| && j != k ==> r.value[j] == path[j])
  {
    var index := 0;
    for i := 0 to |path|
      invariant index == LastMatch(path[..i], false)
    {
      LastMatchStep(path, i, false);
      if path[i] != PathWildcard {
        index := i;
      }
    }
    assert path[..|path|] == path;
    if index >= |path| {
      return Err(IndexError);
    }
    SiblingSegmentIsNotWildcard(path[index], suffix);
    r := Ok(path[..index] + [SiblingSegment(path[index], suffix)] + path[index + 1..]);
  }

  /** The sibling segment is never a wildcard, so the renamed path keeps every wildcard position. */
  lemma SiblingSegmentIsNotWildcard(segment: string, suffix: string)
    ensures SiblingSegment(segment, suffix) != PathWildcard
  {
    assert |SiblingSegment(segment, suffix)| >= 1 + |segment|;
    if segment == [] {
      assert SiblingSegment(segment, suffix)[0] == '_';
    }
  }

  /** The first index, within both paths, at which they differ. */
  function FirstDifference(p1: Path, p2: Path): (r: Option<nat>)
    ensures r.Some? ==> r.value < |p1| && r.value < |p2| && p1[r.value] != p2[r.value]
    ensures r.Some? ==> p1[..r.value] == p2[..r.value]
    ensures r.None? ==> forall j :: 0 <= j < |p1| && j < |p2| ==> p1[j] == p2[j]
  {
    if |p1| == 0 || |p2| == 0 then None
    else if p1[0] != p2[0] then Some(0)
    else match FirstDifference(p1[1..], p2[1..])
      case None =>
        assert forall j :: 0 < j < |p1| && j < |p2| ==> p1[j] == p1[1..][j - 1] && p2[j] == p2[1..][j - 1];
        None
      case Some(i) =>
        assert p1[..i + 1] == [p1[0]] + p1[1..][..i];
        assert p2[..i + 1] == [p2[0]] + p2[1..][..i];
        Some(i + 1)
  }

  /**
   * `get_common_ancestor`: walks both paths together and stops at the first
   * difference. When the paths never differ within their common length
   * (also when one is a proper prefix of the other) the result is
   * `((), '', '')`.
   */
  method CommonAncestor(path1: Path, path2: Path) returns (ancestor: Path, column1: string, column2: string)
    ensures ancestor <= path1 && ancestor <= path2
    ensures match FirstDifference(path1, path2)
      case Some(i) => ancestor == path1[..i] && column1 == path1[i] && column2 == path2[i]
      case None => ancestor == [] && column1 == "" && column2 == ""
  {
    var index := 0;
    column1, column2 := "", "";
    var i := 0;
    ghost var found := false;
    while i < |path1| && i < |path2|
      invariant i <= |path1| && i <= |path2|
      invariant path1[..i] == path2[..i]
      invariant index == 0 && column1 == "" && column2 == "" && !found
    {
      if path1[i] != path2[i] {
        index, column1, column2 := i, path1[i], path2[i];
        found := true;
        break;
      }
      assert path1[..i + 1] == path1[..i] + [path1[i]];
      assert path2[..i + 1] == path2[..i] + [path2[i]];
      i := i + 1;
    }
    ancestor := path1[..index];
    FirstDifferenceIsUnique(path1, path2, if found then Some(index) else None);
  }

  /** Any index meeting FirstDifference's description is the one it returns. */
  lemma FirstDifferenceIsUnique(p1: Path, p2: Path, d: Option<nat>)
    requires d.Some? ==> d.value < |p1| && d.value < |p2| && p1[d.value] != p2[d.value] && p1[..d.value] == p2[..d.value]
    requires d.None? ==> forall j :: 0 <= j < |p1| && j < |p2| ==> p1[j] == p2[j]
    ensures FirstDifference(p1, p2) == d
  {
  }
}
