/**
 * Properties of the workspace synchronisation: the clone selection that `run`
 * executes and the steps the watch-event handlers take.
 */
module WorkspaceSyncProperties {
  import opened Options
  import opened Git
  import opened Projects
  import opened WorkspaceSync
  import ProjectsProperties

  // ------------------------------------------------------------ clone selection

  /** The selection keeps the projects' order: it distributes over concatenation. */
  lemma {:induction false} ClonesForAppend(a: seq<Project>, b: seq<Project>, root: string, pathExists: string -> bool)
    ensures ClonesFor(a + b, root, pathExists) == ClonesFor(a, root, pathExists) + ClonesFor(b, root, pathExists)
  {
    if a == [] {
      assert a + b == b;
    } else {
      assert (a + b)[0] == a[0];
      assert (a + b)[1..] == a[1..] + b;
      ClonesForAppend(a[1..], b, root, pathExists);
    }
  }

  /** When no project folder exists, every project gets its command, in order. */
  lemma {:induction false} ClonesForAllMissing(ps: seq<Project>, root: string, pathExists: string -> bool)
    requires forall i :: 0 <= i < |ps| ==> !pathExists(root + ps[i].path)
    ensures var cmds := ClonesFor(ps, root, pathExists);
      |cmds| == |ps| && forall i :: 0 <= i < |ps| ==> cmds[i] == CloneCommand(ps[i], root)
  {
    if ps != [] {
      var rest := ps[1..];
      assert forall i :: 0 <= i < |rest| ==> rest[i] == ps[i + 1];
      ClonesForAllMissing(rest, root, pathExists);
      ClonesForMissingHead(ps, root, pathExists);
      var cmds := ClonesFor(ps, root, pathExists);
      var tail := ClonesFor(rest, root, pathExists);
      forall i | 0 < i < |ps|
        ensures cmds[i] == CloneCommand(ps[i], root)
      {
        assert cmds[i] == tail[i - 1];
      }
    }
  }

  /** A missing first project gets the first command. */
  lemma ClonesForMissingHead(ps: seq<Project>, root: string, pathExists: string -> bool)
    requires ps != [] && !pathExists(root + ps[0].path)
    ensures ClonesFor(ps, root, pathExists) == [CloneCommand(ps[0], root)] + ClonesFor(ps[1..], root, pathExists)
  {
  }

  /**
   * `run` clones something exactly when the workspace lists a project missing on disk,
   * and then it shows the finish message exactly when every clone resolves.
   */
  lemma RunClonesIff(m: WorkspaceProjectsManager, projects: Option<seq<Project>>, pathExists: string -> bool,
                     allCloned: bool)
    ensures CloneEffects(m.SelectProjectToCloneCommands(projects, pathExists), allCloned) != []
      <==> projects.Some? && exists p :: p in projects.value && !pathExists(m.projectsRoot + p.path)
    ensures ShowedMessage(FinishCloningMessage) in CloneEffects(m.SelectProjectToCloneCommands(projects, pathExists), allCloned)
      <==> allCloned && projects.Some? && exists p :: p in projects.value && !pathExists(m.projectsRoot + p.path)
  {
    var cmds := m.SelectProjectToCloneCommands(projects, pathExists);
    if cmds != [] {
      assert cmds[0] in cmds;
    }
  }

  // ------------------------------------------------------------ handlers

  /**
   * The update handler pushes the workspace exactly when the id, the remote and the
   * projects array are all there; otherwise it pushes nothing and the projects stay.
   */
  lemma UpdateStepPushesIff(id: Option<string>, projects: Option<seq<Project>>, folder: string,
                            branch: Option<GitBranch>, path: string)
    ensures var s := UpdateStep(id, projects, folder, branch, path);
      (s.outcome == Pushed <==> IdDefined(id) && HasRemote(branch) && projects.Some?)
      && (s.outcome != Pushed ==> s.projects == projects && forall e :: e in s.effects ==> !e.PushedUpdate?)
      && (s.outcome == Pushed ==> s.projects.Some? && s.effects == [PushedUpdate(id.value, s.projects.value)])
  {
  }

  /**
   * After a pushing update, the project under path has a git source at the upstream's
   * remote URL and records the upstream's branch, not the local one.
   */
  lemma UpdateRecordsUpstream(id: Option<string>, projects: Option<seq<Project>>, folder: string,
                              branch: Option<GitBranch>, path: string)
    requires IdDefined(id) && HasRemote(branch) && projects.Some?
    ensures var s := UpdateStep(id, projects, folder, branch, path);
      var upstream := branch.value.upstreamBranch.value;
      s.projects.Some? && HasPath(s.projects.value, path)
      && forall j :: 0 <= j < |s.projects.value| && s.projects.value[j].path == path ==>
           s.projects.value[j].source.Some? && s.projects.value[j].source.value.location == upstream.remoteURL.value
           && "branch" in ParametersOf(s.projects.value[j])
           && ParametersOf(s.projects.value[j])["branch"] == upstream.branch
  {
    var upstream := branch.value.upstreamBranch.value;
    ProjectsProperties.UpsertEstablishesSource(projects.value, path, upstream.remoteURL.value, upstream.branch);
  }

  /** A second change event for the same repository leaves the same workspace and pushes the same. */
  lemma UpdateStepIdempotent(id: Option<string>, projects: Option<seq<Project>>, folder: string,
                             branch: Option<GitBranch>, path: string)
    ensures var s := UpdateStep(id, projects, folder, branch, path);
      UpdateStep(id, s.projects, folder, branch, path) == s
  {
    if IdDefined(id) && HasRemote(branch) && projects.Some? {
      var upstream := branch.value.upstreamBranch.value;
      ProjectsProperties.UpsertIdempotent(projects.value, path, upstream.remoteURL.value, upstream.branch);
    }
  }

  /**
   * The delete handler pushes exactly when the id and the projects array are there, and
   * then no project is left under path and what is left is a prefix of the projects.
   */
  lemma DeleteStepRemovesPath(id: Option<string>, projects: Option<seq<Project>>, path: string)
    ensures var s := DeleteStep(id, projects, path);
      (s.outcome == Pushed <==> IdDefined(id) && projects.Some?)
      && (s.outcome != Pushed ==> s.projects == projects && forall e :: e in s.effects ==> !e.PushedUpdate?)
      && (s.outcome == Pushed ==>
            s.projects.Some? && s.effects == [PushedUpdate(id.value, s.projects.value)]
            && !HasPath(s.projects.value, path)
            && s.projects.value == projects.value[..|s.projects.value|])
  {
  }

  /** A second delete event for the same repository changes nothing more. */
  lemma DeleteStepIdempotent(id: Option<string>, projects: Option<seq<Project>>, path: string)
    ensures var s := DeleteStep(id, projects, path);
      DeleteStep(id, s.projects, path).projects == s.projects
  {
  }

  /**
   * A repository that appears and then disappears again leaves the projects as they
   * were, when no project was kept under its path before.
   */
  lemma CreateThenDeleteRestores(id: Option<string>, projects: Option<seq<Project>>, folder: string,
                                 branch: Option<GitBranch>, path: string)
    requires IdDefined(id) && HasRemote(branch) && projects.Some? && !HasPath(projects.value, path)
    ensures DeleteStep(id, UpdateStep(id, projects, folder, branch, path).projects, path).projects == projects
  {
    var ps := projects.value;
    var upstream := branch.value.upstreamBranch.value;
    var r := Upserted(ps, path, upstream.remoteURL.value, upstream.branch);
    ProjectsProperties.UpsertAppendsWhenAbsent(ps, path, upstream.remoteURL.value, upstream.branch);
    NoMatchIff(ps, path);
    assert r[..|r| - 1] == ps;
    assert MatchingIndices(r, path) == [|ps|];
    assert Deleted(r, path) == r[..|ps|];
  }
}
