/**
 * The synchronisation between the projects of the Che workspace and the git
 * repositories in the Theia workspace, from src/workspace-projects-manager.ts.
 *
 * What the class reaches outside itself is a parameter: the current workspace
 * record, the existence test of the file system, the branch that `git` reports
 * for a folder, and the conversion from a folder to a project path. What it does
 * to the outside (console errors, information messages, clone executions and
 * workspace updates) is appended to `effects`, in order.
 */
module WorkspaceSync {
  import opened Options
  import opened Git
  import opened Projects

  // ---------------------------------------------------------------- records

  /**
   * The current workspace as `che.workspace.getCurrentWorkspace()` yields it: an optional
   * id and the optional `config.projects` array, which the handlers change in place.
   */
  datatype Workspace = Workspace(id: Option<string>, projects: Option<ProjectList>) {
    function Lists(): set<object> {
      if projects.Some? then {projects.value} else {}
    }

    /** The entries of the projects array, when there is one. */
    function Items(): Option<seq<Project>>
      reads Lists()
    {
      if projects.Some? then Some(projects.value.items) else None
    }
  }

  /** A clone command built from a project and the projects root. */
  datatype CloneCommand = CloneCommand(project: Project, projectsRoot: string)

  /** A file-system watcher, by the glob pattern it watches. */
  datatype Watcher = Watcher(pattern: string)

  /** The three events a watcher reports. */
  datatype FileEvent = DidCreate | DidChange | DidDelete

  /** What the manager does to the world outside the workspace record. */
  datatype Effect =
    | ReportedError(message: string)
    | ShowedMessage(message: string)
    | ExecutedClones(commands: seq<CloneCommand>)
    | PushedUpdate(workspaceId: string, projects: seq<Project>)

  /**
   * How a handler ended: it skipped the event after reporting an error, it failed
   * because the workspace has no projects array (the TypeError that `projects.filter`
   * raises), or it changed the projects and pushed the workspace.
   */
  datatype Outcome = Skipped | Failed | Pushed

  const GitConfigPattern := "**/.git/{HEAD,config}"
  const MissingIdMessage := "Unexpected error: current workspace id is not defined"
  const StartCloningMessage := "Che Workspace: Starting cloning projects."
  const FinishCloningMessage := "Che Workspace: Finished cloning projects."

  function NoBranchMessage(folder: string): string {
    "Could not detect git project branch for " + folder
  }

  // ----------------------------------------------------- clone selection

  /**
   * The clone selection: in order, a command for every project whose folder does not
   * exist, the folder being the root and the project path joined as plain strings.
   */
  function ClonesFor(ps: seq<Project>, root: string, pathExists: string -> bool): (cmds: seq<CloneCommand>)
    ensures |cmds| <= |ps|
    ensures forall c :: c in cmds ==> c.projectsRoot == root && c.project in ps && !pathExists(root + c.project.path)
    ensures forall p :: p in ps && !pathExists(root + p.path) ==> CloneCommand(p, root) in cmds
  {
    if ps == [] then []
    else
      var rest := ClonesFor(ps[1..], root, pathExists);
      assert forall p :: p in ps[1..] ==> p in ps;
      if !pathExists(root + ps[0].path) then [CloneCommand(ps[0], root)] + rest else rest
  }

  /**
   * The record of executing a selection: nothing when it is empty. The finish message
   * is shown only when every clone resolves; otherwise `Promise.all` rejects first.
   */
  function CloneEffects(cmds: seq<CloneCommand>, allCloned: bool): seq<Effect> {
    if cmds == [] then []
    else [ShowedMessage(StartCloningMessage), ExecutedClones(cmds)]
         + (if allCloned then [ShowedMessage(FinishCloningMessage)] else [])
  }

  // ----------------------------------------------------- watch-event handlers

  /** `!currentWorkspace.id` fails: the id is undefined or empty. */
  predicate IdDefined(id: Option<string>) {
    id.Some? && id.value != ""
  }

  /** The branch, its upstream and a non-empty remote URL are all there. */
  predicate HasRemote(branch: Option<GitBranch>) {
    branch.Some? && branch.value.upstreamBranch.Some?
    && branch.value.upstreamBranch.value.remoteURL.Some?
    && branch.value.upstreamBranch.value.remoteURL.value != ""
  }

  /** What a handler leaves: its outcome, the projects array, and what it did outside. */
  datatype Step = Step(outcome: Outcome, projects: Option<seq<Project>>, effects: seq<Effect>)

  /**
   * updateOrCreateGitProjectInWorkspace for the repository in folder, whose project
   * path is path, given the workspace's id and projects and the branch git reports.
   */
  function UpdateStep(id: Option<string>, projects: Option<seq<Project>>, folder: string,
                      branch: Option<GitBranch>, path: string): (s: Step)
    ensures s.outcome == Skipped <==> !IdDefined(id) || !HasRemote(branch)
    ensures s.outcome == Skipped <==> |s.effects| == 1 && s.effects[0].ReportedError?
    ensures s.outcome == Failed ==> s.effects == [] && projects.None?
    ensures s.outcome != Pushed ==> s.projects == projects
  {
    if !IdDefined(id) then Step(Skipped, projects, [ReportedError(MissingIdMessage)])
    else if !HasRemote(branch) then Step(Skipped, projects, [ReportedError(NoBranchMessage(folder))])
    else if projects.None? then Step(Failed, projects, [])
    else
      var upstream := branch.value.upstreamBranch.value;
      var updated := Upserted(projects.value, path, upstream.remoteURL.value, upstream.branch);
      Step(Pushed, Some(updated), [PushedUpdate(id.value, updated)])
  }

  /** deleteGitProjectInWorkspace for the project path of a removed repository. */
  function DeleteStep(id: Option<string>, projects: Option<seq<Project>>, path: string): (s: Step)
    ensures s.outcome == Skipped <==> !IdDefined(id)
    ensures s.outcome == Skipped <==> s.effects == [ReportedError(MissingIdMessage)]
    ensures s.outcome == Failed ==> s.effects == [] && projects.None?
    ensures s.outcome != Pushed ==> s.projects == projects
  {
    if !IdDefined(id) then Step(Skipped, projects, [ReportedError(MissingIdMessage)])
    else if projects.None? then Step(Failed, projects, [])
    else
      var remaining := Deleted(projects.value, path);
      Step(Pushed, Some(remaining), [PushedUpdate(id.value, remaining)])
  }

  // ---------------------------------------------------------------- the class

  class WorkspaceProjectsManager {
    const projectsRoot: string
    var watchers: seq<Watcher>
    var effects: seq<Effect>

    constructor(projectsRoot: string)
      ensures this.projectsRoot == projectsRoot && watchers == [] && effects == []
    {
      this.projectsRoot := projectsRoot;
      watchers := [];
      effects := [];
    }

    /** selectProjectToCloneCommands: no projects array, no commands. */
    function SelectProjectToCloneCommands(projects: Option<seq<Project>>, pathExists: string -> bool): (cmds: seq<CloneCommand>)
      ensures projects.None? ==> cmds == []
      ensures projects.Some? ==> forall p :: p in projects.value ==>
        (CloneCommand(p, projectsRoot) in cmds <==> !pathExists(projectsRoot + p.path))
      ensures projects.Some? ==> forall c :: c in cmds ==> c.project in projects.value
      ensures forall c :: c in cmds ==> c.projectsRoot == projectsRoot
    {
      if projects.None? then [] else ClonesFor(projects.value, projectsRoot, pathExists)
    }

    /**
     * run: arm the watcher, then execute the clone commands of the selection, if any.
     * Whether every clone resolves is decided outside the model and given as allCloned;
     * run resolves unless a clone was started and one of them rejected.
     */
    method Run(projects: Option<seq<Project>>, pathExists: string -> bool, allCloned: bool) returns (resolved: bool)
      modifies this
      ensures resolved <==> SelectProjectToCloneCommands(projects, pathExists) == [] || allCloned
      ensures watchers == old(watchers) + [Watcher(GitConfigPattern)]
      ensures effects == old(effects) + CloneEffects(SelectProjectToCloneCommands(projects, pathExists), allCloned)
    {
      SyncWorkspace();
      var cloneCommandList := SelectProjectToCloneCommands(projects, pathExists);
      if |cloneCommandList| == 0 {
        return true;
      }
      resolved := ExecuteCloneCommands(cloneCommandList, allCloned);
    }

    /**
     * executeCloneCommands: the start message, the clones, and the finish message once
     * all of them resolve; when one rejects, the call rejects before the finish message.
     */
    method ExecuteCloneCommands(cloneCommandList: seq<CloneCommand>, allCloned: bool) returns (resolved: bool)
      modifies this
      ensures resolved == allCloned
      ensures watchers == old(watchers)
      ensures effects == old(effects) + [ShowedMessage(StartCloningMessage), ExecutedClones(cloneCommandList)]
                                      + (if allCloned then [ShowedMessage(FinishCloningMessage)] else [])
    {
      effects := effects + [ShowedMessage(StartCloningMessage)];
      effects := effects + [ExecutedClones(cloneCommandList)];
      if !allCloned {
        return false;
      }
      effects := effects + [ShowedMessage(FinishCloningMessage)];
      return true;
    }

    /** syncWorkspace: one more watcher on the git HEAD and config files. */
    method SyncWorkspace()
      modifies this
      ensures watchers == old(watchers) + [Watcher(GitConfigPattern)]
      ensures effects == old(effects)
    {
      watchers := watchers + [Watcher(GitConfigPattern)];
    }

    /**
     * The callbacks an armed watcher runs: a created or changed file updates, a deleted
     * one deletes, the project of the repository root of the file's path.
     */
    method OnFileEvent(event: FileEvent, uriPath: string, ws: Workspace, branch: Option<GitBranch>,
                       convert: (string, string) -> string) returns (outcome: Outcome)
      requires watchers != []
      modifies this, ws.Lists()
      ensures watchers == old(watchers)
      ensures var folder := GetGitRootFolder(uriPath);
        var step := if event.DidDelete? then DeleteStep(ws.id, old(ws.Items()), convert(folder, projectsRoot))
                    else UpdateStep(ws.id, old(ws.Items()), folder, branch, convert(folder, projectsRoot));
        outcome == step.outcome && ws.Items() == step.projects && effects == old(effects) + step.effects
    {
      var folder := GetGitRootFolder(uriPath);
      match event
      case DidCreate =>
        outcome := UpdateOrCreateGitProjectInWorkspace(folder, ws, branch, convert);
      case DidChange =>
        outcome := UpdateOrCreateGitProjectInWorkspace(folder, ws, branch, convert);
      case DidDelete =>
        outcome := DeleteGitProjectInWorkspace(folder, ws, convert);
    }

    /** updateOrCreateGitProjectInWorkspace, as UpdateStep describes it. */
    method UpdateOrCreateGitProjectInWorkspace(projectFolderURI: string, ws: Workspace, branch: Option<GitBranch>,
                                               convert: (string, string) -> string) returns (outcome: Outcome)
      modifies this, ws.Lists()
      ensures watchers == old(watchers)
      ensures var step := UpdateStep(ws.id, old(ws.Items()), projectFolderURI, branch, convert(projectFolderURI, projectsRoot));
        outcome == step.outcome && ws.Items() == step.projects && effects == old(effects) + step.effects
    {
      if !IdDefined(ws.id) {
        effects := effects + [ReportedError(MissingIdMessage)];
        return Skipped;
      }
      if !HasRemote(branch) {
        effects := effects + [ReportedError(NoBranchMessage(projectFolderURI))];
        return Skipped;
      }
      if ws.projects.None? {
        return Failed;
      }
      var upstream := branch.value.upstreamBranch.value;
      var list := ws.projects.value;
      var returned := list.UpdateOrCreateGitProject(convert(projectFolderURI, projectsRoot), upstream.remoteURL.value,
                                                    upstream.branch);
      effects := effects + [PushedUpdate(ws.id.value, list.items)];
      return Pushed;
    }

    /** deleteGitProjectInWorkspace, as DeleteStep describes it. */
    method DeleteGitProjectInWorkspace(projectFolderURI: string, ws: Workspace,
                                       convert: (string, string) -> string) returns (outcome: Outcome)
      modifies this, ws.Lists()
      ensures watchers == old(watchers)
      ensures var step := DeleteStep(ws.id, old(ws.Items()), convert(projectFolderURI, projectsRoot));
        outcome == step.outcome && ws.Items() == step.projects && effects == old(effects) + step.effects
    {
      if !IdDefined(ws.id) {
        effects := effects + [ReportedError(MissingIdMessage)];
        return Skipped;
      }
      if ws.projects.None? {
        return Failed;
      }
      var list := ws.projects.value;
      var returned := list.DeleteGitProject(convert(projectFolderURI, projectsRoot));
      effects := effects + [PushedUpdate(ws.id.value, list.items)];
      return Pushed;
    }
  }
}
