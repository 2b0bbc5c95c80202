/**
 * The project-list reconciler of src/projects.ts: inserting or overwriting the git
 * source of the workspace projects kept under a path, and deleting them again.
 *
 * Both operations change the caller's array in place and hand back that same
 * array; here the array is a ProjectList object whose `items` the methods reassign.
 * Entries are values: the source's forEach over the filtered entries changes the
 * very objects held in the array, which is what updating them by index does here.
 */
module Projects {
  import opened Options

  // ---------------------------------------------------------------- records

  /** Where a project's code comes from: `type`, `location` and the optional `parameters`. */
  datatype Source = Source(sourceType: string, location: string, parameters: Option<map<string, string>>)

  /** One entry of the workspace configuration's `projects` list. */
  datatype Project = Project(
    name: string,
    attributes: map<string, seq<string>>,
    source: Option<Source>,
    path: string,
    description: string,
    mixins: seq<string>)

  // ------------------------------------------------------ library operations

  /** `path.split('/').pop()`: the text after the last '/', or the whole path when it has none. */
  function LastSegment(path: string): (seg: string)
    ensures |seg| <= |path| && seg == path[|path| - |seg|..]
    ensures forall i :: 0 <= i < |seg| ==> seg[i] != '/'
    ensures |seg| < |path| ==> path[|path| - |seg| - 1] == '/'
  {
    if path == [] || path[|path| - 1] == '/' then []
    else LastSegment(path[..|path| - 1]) + [path[|path| - 1]]
  }

  /** `Array.prototype.indexOf`: the first position holding x, or -1 when there is none. */
  function IndexOf(s: seq<Project>, x: Project): (r: int)
    ensures r == -1 <==> x !in s
    ensures r != -1 ==> 0 <= r < |s| && s[r] == x && forall j :: 0 <= j < r ==> s[j] != x
  {
    if s == [] then -1
    else if s[0] == x then 0
    else
      var r := IndexOf(s[1..], x);
      if r == -1 then -1 else r + 1
  }

  /**
   * The position from which `splice(start)`, called with no delete count, removes
   * everything: a negative start counts back from the end, clamped at 0.
   */
  function SpliceStart(length: nat, start: int): (k: nat)
    ensures k <= length
    ensures 0 <= start <= length ==> k == start
    ensures -(length as int) <= start < 0 ==> k == length + start
    ensures start < -(length as int) ==> k == 0
  {
    if start < 0 then (if length + start < 0 then 0 else length + start)
    else if start < length then start
    else length
  }

  // ------------------------------------------------------------ filtering

  /** The positions of the entries kept under path, in order: what `filter` selects. */
  function MatchingIndices(ps: seq<Project>, path: string): (idx: seq<nat>)
    ensures forall k :: 0 <= k < |idx| ==> idx[k] < |ps| && ps[idx[k]].path == path
    ensures forall j :: 0 <= j < |ps| && ps[j].path == path ==> j in idx
    ensures forall k, l :: 0 <= k < l < |idx| ==> idx[k] < idx[l]
  {
    if ps == [] then []
    else
      var front := MatchingIndices(ps[..|ps| - 1], path);
      if ps[|ps| - 1].path == path then front + [|ps| - 1] else front
  }

  /** The entries kept under path, in order: `projects.filter(project => project.path === path)`. */
  function Matching(ps: seq<Project>, path: string): (m: seq<Project>)
    ensures |m| == |MatchingIndices(ps, path)|
    ensures forall k :: 0 <= k < |m| ==> m[k].path == path
  {
    var idx := MatchingIndices(ps, path);
    seq(|idx|, k requires 0 <= k < |idx| => ps[idx[k]])
  }

  /** Whether some entry is kept under path. */
  predicate HasPath(ps: seq<Project>, path: string) {
    exists j :: 0 <= j < |ps| && ps[j].path == path
  }

  /** The entries whose path differs: what an ideal "remove every match" would leave. */
  function Removed(ps: seq<Project>, path: string): (r: seq<Project>)
    ensures forall j :: 0 <= j < |r| ==> r[j].path != path
    ensures |r| == |ps| - |MatchingIndices(ps, path)|
  {
    if ps == [] then []
    else
      var front := Removed(ps[..|ps| - 1], path);
      if ps[|ps| - 1].path == path then front else front + [ps[|ps| - 1]]
  }

  // ------------------------------------------------------------ upsert

  /** The name of a project created for path: its last segment, or "new-project" when that is empty. */
  function ProjectName(path: string): (name: string)
    ensures name != "" && forall i :: 0 <= i < |name| ==> name[i] != '/'
    ensures LastSegment(path) != "" ==> name == LastSegment(path)
  {
    var seg := LastSegment(path);
    if seg != "" then seg else "new-project"
  }

  /** The entry created when no project is kept under path. */
  function NewGitProject(path: string, location: string, branch: string): (p: Project)
    ensures p.path == path && p.name == ProjectName(path)
    ensures p.source.Some? && p.source.value.sourceType == "git" && p.source.value.location == location
    ensures ParametersOf(p) == map["branch" := branch]
    ensures p.attributes == map[] && p.description == "" && p.mixins == []
  {
    Project(ProjectName(path), map[], Some(Source("git", location, Some(map["branch" := branch]))), path, "", [])
  }

  /** The parameters an entry's source carries, none counting as empty. */
  function ParametersOf(p: Project): map<string, string> {
    if p.source.Some? && p.source.value.parameters.Some? then p.source.value.parameters.value else map[]
  }

  /**
   * A matching entry after the update: a git source at location whose parameters
   * map "branch" to branch; an existing source keeps its type and its other parameters.
   */
  function WithGitSource(p: Project, location: string, branch: string): (r: Project)
    ensures r.(source := p.source) == p
    ensures r.source.Some? && r.source.value.location == location
    ensures r.source.value.sourceType == (if p.source.Some? then p.source.value.sourceType else "git")
    ensures ParametersOf(r) == ParametersOf(p)["branch" := branch]
  {
    var sourceType := if p.source.Some? then p.source.value.sourceType else "git";
    p.(source := Some(Source(sourceType, location, Some(ParametersOf(p)["branch" := branch]))))
  }

  /** The list after `updateOrCreateGitProject(ps, path, location, branch)`. */
  function Upserted(ps: seq<Project>, path: string, location: string, branch: string): (r: seq<Project>)
    ensures |r| == if HasPath(ps, path) then |ps| else |ps| + 1
    ensures forall j :: 0 <= j < |ps| ==> r[j].path == ps[j].path
    ensures HasPath(r, path)
  {
    if !HasPath(ps, path) then
      var r := ps + [NewGitProject(path, location, branch)];
      assert r[|ps|].path == path;
      r
    else
      var r := seq(|ps|, j requires 0 <= j < |ps| => if ps[j].path == path then WithGitSource(ps[j], location, branch) else ps[j]);
      var j :| 0 <= j < |ps| && ps[j].path == path;
      assert r[j].path == path;
      r
  }

  // ------------------------------------------------------------ delete

  function Max0(x: int): nat {
    if x < 0 then 0 else x
  }

  /**
   * The list after `deleteGitProject(ps, path)`. The first match's splice truncates
   * the list at that match; the later matches are no longer found (indexOf gives -1),
   * and `splice(-1)` drops the last entry each time. With i the first match and m the
   * number of matches, the first max(0, i - (m - 1)) entries are left.
   */
  function Deleted(ps: seq<Project>, path: string): (r: seq<Project>)
    ensures |r| <= |ps| && r == ps[..|r|]
    ensures forall j :: 0 <= j < |r| ==> r[j].path != path
    ensures forall j :: 0 <= j < |ps| && ps[j].path == path ==> |r| <= j
    ensures !HasPath(ps, path) ==> r == ps
  {
    var idx := MatchingIndices(ps, path);
    if |idx| == 0 then ps
    else
      FirstMatchBounds(ps, path);
      ps[..Max0(idx[0] - (|idx| - 1))]
  }

  /** The first match is the least position kept under path. */
  lemma FirstMatchBounds(ps: seq<Project>, path: string)
    requires |MatchingIndices(ps, path)| > 0
    ensures forall j :: 0 <= j < |ps| && ps[j].path == path ==> MatchingIndices(ps, path)[0] <= j
  {
    var idx := MatchingIndices(ps, path);
    assert forall k :: 0 <= k < |idx| ==> idx[0] <= idx[k];
  }

  /** No entry is kept under path exactly when the filter selects nothing. */
  lemma NoMatchIff(ps: seq<Project>, path: string)
    ensures |MatchingIndices(ps, path)| == 0 <==> !HasPath(ps, path)
  {
    var idx := MatchingIndices(ps, path);
    if |idx| > 0 {
      assert ps[idx[0]].path == path;
    }
  }

  /** The list after the splices of the first k filtered entries. */
  function DeletedAfter(ps: seq<Project>, path: string, k: nat): seq<Project>
    requires k <= |MatchingIndices(ps, path)|
  {
    if k == 0 then ps else ps[..Max0(MatchingIndices(ps, path)[0] - (k - 1))]
  }

  /** indexOf finds an entry at its first occurrence, and truncating there keeps what precedes it. */
  lemma SpliceAtFirst(s: seq<Project>, x: Project, i: nat)
    requires i < |s| && s[i] == x
    requires forall j :: 0 <= j < i ==> s[j] != x
    ensures s[..SpliceStart(|s|, IndexOf(s, x))] == s[..i]
  {
    assert x in s;
  }

  /** indexOf misses an absent entry, and `splice(-1)` drops the last entry, if any. */
  lemma SpliceAbsent(s: seq<Project>, x: Project)
    requires x !in s
    ensures s[..SpliceStart(|s|, IndexOf(s, x))] == s[..Max0(|s| - 1)]
  {
  }

  lemma PrefixOfPrefix(ps: seq<Project>, a: nat, b: nat)
    requires b <= a <= |ps|
    ensures ps[..a][..b] == ps[..b]
  {
  }

  /** The first splice truncates the list at the first match. */
  lemma FirstSplice(ps: seq<Project>, path: string)
    requires 0 < |MatchingIndices(ps, path)|
    ensures ps[..SpliceStart(|ps|, IndexOf(ps, Matching(ps, path)[0]))] == DeletedAfter(ps, path, 1)
  {
    FirstMatchBounds(ps, path);
    var i := MatchingIndices(ps, path)[0];
    var x := Matching(ps, path)[0];
    assert x == ps[i];
    assert forall j :: 0 <= j < i ==> ps[j].path != path;
    SpliceAtFirst(ps, x, i);
  }

  /** Every later splice finds nothing left under path and drops the last entry. */
  lemma LaterSplice(ps: seq<Project>, path: string, k: nat)
    requires 0 < k < |MatchingIndices(ps, path)|
    ensures var s := DeletedAfter(ps, path, k);
      s[..SpliceStart(|s|, IndexOf(s, Matching(ps, path)[k]))] == DeletedAfter(ps, path, k + 1)
  {
    FirstMatchBounds(ps, path);
    var i: int := MatchingIndices(ps, path)[0];
    var n := Max0(i - (k - 1));
    var s := ps[..n];
    assert forall j :: 0 <= j < |s| ==> s[j].path != path;
    SpliceAbsent(s, Matching(ps, path)[k]);
    assert Max0(|s| - 1) == Max0(i - k);
    PrefixOfPrefix(ps, n, Max0(i - k));
  }

  /** One more `splice(indexOf(entry))` takes the list from k splices to k + 1. */
  lemma DeletedAfterStep(ps: seq<Project>, path: string, k: nat)
    requires k < |MatchingIndices(ps, path)|
    ensures var s := DeletedAfter(ps, path, k);
      s[..SpliceStart(|s|, IndexOf(s, Matching(ps, path)[k]))] == DeletedAfter(ps, path, k + 1)
  {
    if k == 0 {
      FirstSplice(ps, path);
    } else {
      LaterSplice(ps, path, k);
    }
  }

  // ------------------------------------------------------------ the array

  /** The `projects` array of a workspace configuration, changed in place. */
  class ProjectList {
    var items: seq<Project>

    constructor(items: seq<Project>)
      ensures this.items == items
    {
      this.items := items;
    }

    /**
     * updateOrCreateGitProject: with no entry under path, push a new git project;
     * otherwise set the location and branch of every entry under path. Returns this list.
     */
    method UpdateOrCreateGitProject(path: string, location: string, branch: string) returns (r: ProjectList)
      modifies this
      ensures r == this
      ensures items == Upserted(old(items), path, location, branch)
    {
      var filtered := MatchingIndices(items, path);
      NoMatchIff(items, path);
      if |filtered| == 0 {
        items := items + [NewGitProject(path, location, branch)];
        return this;
      }
      ghost var ps := items;
      var k := 0;
      while k < |filtered|
        invariant 0 <= k <= |filtered|
        invariant items == UpdatedAt(ps, filtered[..k], location, branch)
      {
        var j := filtered[k];
        var project := items[j];
        var source := if project.source.None? then Source("git", "", Some(map[])) else project.source.value;
        source := source.(location := location);
        if source.parameters.None? {
          source := source.(parameters := Some(map[]));
        }
        source := source.(parameters := Some(source.parameters.value["branch" := branch]));
        NotYetVisited(ps, path, k);
        UpdatedAtStep(ps, filtered[..k], j, location, branch);
        assert filtered[..k + 1] == filtered[..k] + [j];
        items := items[j := project.(source := Some(source))];
        k := k + 1;
      }
      assert filtered[..k] == filtered;
      UpdatedAtAll(ps, path, location, branch);
      return this;
    }

    /**
     * deleteGitProject: for each entry under path, in order, `splice(indexOf(entry))`,
     * a splice with no delete count. Returns this list.
     */
    method DeleteGitProject(path: string) returns (r: ProjectList)
      modifies this
      ensures r == this
      ensures items == Deleted(old(items), path)
    {
      ghost var ps := items;
      var filtered := Matching(items, path);
      var k := 0;
      while k < |filtered|
        invariant 0 <= k <= |filtered|
        invariant items == DeletedAfter(ps, path, k)
      {
        var start := IndexOf(items, filtered[k]);
        DeletedAfterStep(ps, path, k);
        items := items[..SpliceStart(|items|, start)];
        k := k + 1;
      }
      return this;
    }
  }

  /** The list with the entries at the positions in done given their git source. */
  function UpdatedAt(ps: seq<Project>, done: seq<nat>, location: string, branch: string): (r: seq<Project>)
    ensures |r| == |ps|
  {
    seq(|ps|, j requires 0 <= j < |ps| => if j in done then WithGitSource(ps[j], location, branch) else ps[j])
  }

  /** The filter visits each position once: the k-th one is not among those before it. */
  lemma NotYetVisited(ps: seq<Project>, path: string, k: nat)
    requires k < |MatchingIndices(ps, path)|
    ensures MatchingIndices(ps, path)[k] !in MatchingIndices(ps, path)[..k]
  {
    var idx := MatchingIndices(ps, path);
    assert forall i :: 0 <= i < k ==> idx[..k][i] < idx[k];
  }

  /** The forEach body at a position not visited before updates just that entry. */
  lemma UpdatedAtStep(ps: seq<Project>, done: seq<nat>, x: nat, location: string, branch: string)
    requires x < |ps| && x !in done
    ensures UpdatedAt(ps, done + [x], location, branch)
      == UpdatedAt(ps, done, location, branch)[x := WithGitSource(ps[x], location, branch)]
  {
  }

  /** Once every filtered entry has been visited, the list is the upserted one. */
  lemma UpdatedAtAll(ps: seq<Project>, path: string, location: string, branch: string)
    requires HasPath(ps, path)
    ensures UpdatedAt(ps, MatchingIndices(ps, path), location, branch) == Upserted(ps, path, location, branch)
  {
  }
}
