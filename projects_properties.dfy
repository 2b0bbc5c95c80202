/**
 * What updateOrCreateGitProject and deleteGitProject promise about the project list:
 * the entry appended for a new path, the entries overwritten in place, the last call
 * winning, and the truncation that deleting performs.
 */
module ProjectsProperties {
  import opened Options
  import opened Projects

  /** No two entries are kept under the same path. */
  predicate UniquePaths(ps: seq<Project>) {
    forall i, j :: 0 <= i < j < |ps| ==> ps[i].path != ps[j].path
  }

  // ------------------------------------------------------------ names

  /** After a '/', a segment without '/' is the last segment of the path, even an empty one. */
  lemma {:induction false} LastSegmentAfterSlash(dir: string, name: string)
    requires forall i :: 0 <= i < |name| ==> name[i] != '/'
    ensures LastSegment(dir + ("/" + name)) == name
  {
    var path := dir + ("/" + name);
    if name != [] {
      var init := name[..|name| - 1];
      LastSegmentAfterSlash(dir, init);
      assert path[..|path| - 1] == dir + ("/" + init);
      assert name == init + [name[|name| - 1]];
    }
  }

  /** A path ending in `/name`, with name non-empty and free of '/', gives the new project that name. */
  lemma ProjectNameOfPath(dir: string, name: string)
    requires name != [] && forall i :: 0 <= i < |name| ==> name[i] != '/'
    ensures ProjectName(dir + ("/" + name)) == name
  {
    LastSegmentAfterSlash(dir, name);
  }

  /** A path that is empty or ends in '/' gives the new project the name "new-project". */
  lemma ProjectNameFallback(path: string)
    requires path == [] || path[|path| - 1] == '/'
    ensures ProjectName(path) == "new-project"
  {
  }

  // ------------------------------------------------------------ upsert

  /**
   * With no entry under path, the list grows by one entry at the end, earlier entries
   * unchanged and in order; the new entry is a git project at location on branch.
   */
  lemma UpsertAppendsWhenAbsent(ps: seq<Project>, path: string, location: string, branch: string)
    requires !HasPath(ps, path)
    ensures var r := Upserted(ps, path, location, branch);
      |r| == |ps| + 1 && r[..|ps|] == ps
      && r[|ps|] == Project(ProjectName(path), map[], Some(Source("git", location, Some(map["branch" := branch]))),
                            path, "", [])
  {
    var r := Upserted(ps, path, location, branch);
    assert r[..|ps|] == ps;
  }

  /**
   * With entries under path, the list keeps its length; those entries get the location and
   * the branch, an existing source keeping its type and its other parameters, a missing one
   * becoming a git source; nothing else in any entry changes.
   */
  lemma UpsertUpdatesInPlace(ps: seq<Project>, path: string, location: string, branch: string)
    requires HasPath(ps, path)
    ensures var r := Upserted(ps, path, location, branch);
      |r| == |ps|
      && (forall j :: 0 <= j < |ps| && ps[j].path != path ==> r[j] == ps[j])
      && (forall j :: 0 <= j < |ps| && ps[j].path == path ==>
            r[j].source.Some? && r[j].source.value.location == location
            && r[j].source.value.sourceType == (if ps[j].source.Some? then ps[j].source.value.sourceType else "git")
            && ParametersOf(r[j]) == ParametersOf(ps[j])["branch" := branch]
            && r[j].(source := ps[j].source) == ps[j])
  {
  }

  /** Afterwards some entry is kept under path, and every such entry is a source at location on branch. */
  lemma UpsertEstablishesSource(ps: seq<Project>, path: string, location: string, branch: string)
    ensures var r := Upserted(ps, path, location, branch);
      HasPath(r, path)
      && forall j :: 0 <= j < |r| && r[j].path == path ==>
           r[j].source.Some? && r[j].source.value.location == location
           && "branch" in ParametersOf(r[j]) && ParametersOf(r[j])["branch"] == branch
  {
    var r := Upserted(ps, path, location, branch);
    if HasPath(ps, path) {
      UpsertUpdatesInPlace(ps, path, location, branch);
    } else {
      UpsertAppendsWhenAbsent(ps, path, location, branch);
      forall j | 0 <= j < |r| && r[j].path == path
        ensures r[j].source.Some? && r[j].source.value.location == location
        ensures "branch" in ParametersOf(r[j]) && ParametersOf(r[j])["branch"] == branch
      {
        assert j == |ps|;
      }
    }
  }

  /** Updating an entry twice is updating it once with the second location and branch. */
  lemma WithGitSourceTwice(p: Project, l1: string, b1: string, l2: string, b2: string)
    ensures WithGitSource(WithGitSource(p, l1, b1), l2, b2) == WithGitSource(p, l2, b2)
  {
    assert ParametersOf(p)["branch" := b1]["branch" := b2] == ParametersOf(p)["branch" := b2];
  }

  /**
   * The last call wins: a second call for the same path, with any location and branch,
   * gives the list a single call with those would give; no entry is duplicated.
   */
  lemma UpsertLastWriteWins(ps: seq<Project>, path: string, l1: string, b1: string, l2: string, b2: string)
    ensures Upserted(Upserted(ps, path, l1, b1), path, l2, b2) == Upserted(ps, path, l2, b2)
  {
    if HasPath(ps, path) {
      UpsertTwicePresent(ps, path, l1, b1, l2, b2);
    } else {
      UpsertTwiceAbsent(ps, path, l1, b1, l2, b2);
    }
  }

  lemma UpsertTwicePresent(ps: seq<Project>, path: string, l1: string, b1: string, l2: string, b2: string)
    requires HasPath(ps, path)
    ensures Upserted(Upserted(ps, path, l1, b1), path, l2, b2) == Upserted(ps, path, l2, b2)
  {
    var r1 := Upserted(ps, path, l1, b1);
    var r2 := Upserted(r1, path, l2, b2);
    var r := Upserted(ps, path, l2, b2);
    forall i | 0 <= i < |ps| ensures r2[i] == r[i] {
      if ps[i].path == path {
        WithGitSourceTwice(ps[i], l1, b1, l2, b2);
      }
    }
  }

  lemma UpsertTwiceAbsent(ps: seq<Project>, path: string, l1: string, b1: string, l2: string, b2: string)
    requires !HasPath(ps, path)
    ensures Upserted(Upserted(ps, path, l1, b1), path, l2, b2) == Upserted(ps, path, l2, b2)
  {
    var r1 := Upserted(ps, path, l1, b1);
    var r2 := Upserted(r1, path, l2, b2);
    var r := Upserted(ps, path, l2, b2);
    assert r1[|ps|].path == path;
    UpsertAppendsWhenAbsent(ps, path, l1, b1);
    UpsertAppendsWhenAbsent(ps, path, l2, b2);
    assert |r2| == |r|;
    forall i | 0 <= i < |r| ensures r2[i] == r[i] {
      if i < |ps| {
        assert r1[i] == ps[i] && ps[i].path != path;
      } else {
        WithGitSourceTwice(Project(ProjectName(path), map[], None, path, "", []), l1, b1, l2, b2);
      }
    }
  }

  /** Upserting is idempotent: repeating the call changes nothing. */
  lemma UpsertIdempotent(ps: seq<Project>, path: string, location: string, branch: string)
    ensures var r := Upserted(ps, path, location, branch);
      Upserted(r, path, location, branch) == r
  {
    UpsertLastWriteWins(ps, path, location, branch, location, branch);
  }

  /** A list without two entries under one path keeps that property. */
  lemma UpsertKeepsPathsUnique(ps: seq<Project>, path: string, location: string, branch: string)
    requires UniquePaths(ps)
    ensures UniquePaths(Upserted(ps, path, location, branch))
  {
    var r := Upserted(ps, path, location, branch);
    forall i, j | 0 <= i < j < |r| ensures r[i].path != r[j].path {
      if j == |ps| {
        assert !HasPath(ps, path) && r[j].path == path && r[i].path == ps[i].path;
      } else {
        assert r[i].path == ps[i].path && r[j].path == ps[j].path;
      }
    }
  }

  // ------------------------------------------------------------ delete

  /** Deleting truncates at the first match and then drops one entry per further match. */
  predicate AgreesWithFilter(ps: seq<Project>, path: string) {
    !HasPath(ps, path)
    || |MatchingIndices(ps, path)| == |ps|
    || (|MatchingIndices(ps, path)| == 1 && ps[|ps| - 1].path == path)
  }

  /** In the three agreeing cases deleting leaves what the filter leaves. */
  lemma DeleteAgreesWithFilter(ps: seq<Project>, path: string)
    requires AgreesWithFilter(ps, path)
    ensures Deleted(ps, path) == Removed(ps, path)
  {
    NoMatchIff(ps, path);
    var idx := MatchingIndices(ps, path);
    if |idx| == 0 {
      RemovedNothing(ps, path);
    } else if |idx| == |ps| {
      IndicesFromFirst(idx);
      assert idx[0] + (|idx| - 1) <= idx[|idx| - 1];
    } else {
      assert |ps| - 1 in idx;
      FirstMatchBounds(ps, path);
      RemovedBeforeLast(ps, path);
    }
  }

  /** Otherwise deleting leaves fewer entries than the filter does. */
  lemma DeleteDiffersFromFilter(ps: seq<Project>, path: string)
    requires !AgreesWithFilter(ps, path)
    ensures |Deleted(ps, path)| < |Removed(ps, path)|
  {
    NoMatchIff(ps, path);
    var idx := MatchingIndices(ps, path);
    IndicesFromFirst(idx);
    assert idx[0] + (|idx| - 1) <= idx[|idx| - 1];
    assert ps[idx[0]].path == path;
  }

  /**
   * Deleting agrees with removing every entry under path exactly when there is no such
   * entry, when every entry is one, or when the only one is the last entry.
   */
  lemma DeleteMatchesFilterIff(ps: seq<Project>, path: string)
    ensures Deleted(ps, path) == Removed(ps, path) <==> AgreesWithFilter(ps, path)
  {
    if AgreesWithFilter(ps, path) {
      DeleteAgreesWithFilter(ps, path);
    } else {
      DeleteDiffersFromFilter(ps, path);
    }
  }

  /** Strictly increasing positions grow at least by one per step. */
  lemma {:induction false} IndicesFromFirst(idx: seq<nat>)
    requires forall k, l :: 0 <= k < l < |idx| ==> idx[k] < idx[l]
    ensures forall k :: 0 <= k < |idx| ==> idx[0] + k <= idx[k]
  {
    if |idx| > 1 {
      var front := idx[..|idx| - 1];
      IndicesFromFirst(front);
      assert forall k :: 0 <= k < |front| ==> front[k] == idx[k];
      assert idx[|idx| - 2] < idx[|idx| - 1];
    }
  }

  /** With nothing under path the filter keeps every entry. */
  lemma {:induction false} RemovedNothing(ps: seq<Project>, path: string)
    requires !HasPath(ps, path)
    ensures Removed(ps, path) == ps
  {
    if ps != [] {
      RemovedNothing(ps[..|ps| - 1], path);
      assert ps == ps[..|ps| - 1] + [ps[|ps| - 1]];
    }
  }

  /** When only the last entry is under path, the filter keeps the entries before it. */
  lemma RemovedBeforeLast(ps: seq<Project>, path: string)
    requires ps != [] && ps[|ps| - 1].path == path
    requires forall j :: 0 <= j < |ps| - 1 ==> ps[j].path != path
    ensures Removed(ps, path) == ps[..|ps| - 1]
  {
    RemovedNothing(ps[..|ps| - 1], path);
  }

  /**
   * Two entries with different paths: deleting the first one's path leaves an empty list,
   * where removing every match would keep the second entry.
   */
  lemma DeleteTruncatesExample(a: Project, b: Project)
    requires a.path != b.path
    ensures Deleted([a, b], a.path) == []
    ensures Removed([a, b], a.path) == [b]
  {
    assert [a, b][0].path == a.path;
    assert [a, b][..1] == [a];
    assert [a][..0] == [];
  }
}
