# Workspace project synchronisation of che-theia-factory-extension, in Dafny

This project models the part of the Che Theia factory extension that keeps the
projects of a Che workspace in step with the git repositories checked out under
the projects root. It has three parts:

- **Branch parsing** (`src/git.ts`). This covers `parseGitBranch` on a line of
  `git branch -vv` and `getGitRootFolder` on a watched `.git/config` or
  `.git/HEAD` path. The parser's regular expression is modelled as a deterministic
  scanner (`Git.MatchPrefix`, `Git.MatchBracket`). Lemmas prove that it accepts
  exactly the lines the pattern matches. They also prove that every group it
  returns is text at its place in the line, and that every well-formed upstream
  bracket is found. When a bracket is followed by more name characters, as in
  `[o/m]x]`, the greedy regex may take a longer branch; the scanner then returns
  the longest branch after which the bracket still closes, never a shorter one.
- **The project list** (`src/projects.ts`). `updateOrCreateGitProject` and
  `deleteGitProject` change the workspace's `projects` array in place. They are
  methods of the class `Projects.ProjectList`. Each method is proved against a
  specification function (`Projects.Upserted`, `Projects.Deleted`), and the
  properties are proved about those functions.
- **The manager** (`src/workspace-projects-manager.ts`). The class
  `WorkspaceSync.WorkspaceProjectsManager` has the projects root, its watchers
  and a record of what it did outside itself: console errors, information
  messages, clone executions and workspace updates. Each watch-event handler is
  proved against a step function (`WorkspaceSync.UpdateStep`,
  `WorkspaceSync.DeleteStep`).

`deleteGitProject` is modelled as the code is written. For each entry under the
path, in the order `filter` returns them, it calls `projects.splice(projects.indexOf(entry))`.
This splice has no delete count, so it truncates the array at the entry. As a
result:

- The first match cuts the list at that match.
- Every later match is no longer found. `indexOf` gives -1, and `splice(-1)` drops
  the last entry.

Removing every matching entry, as an idealised delete would, is `Projects.Removed`;
the model follows the code. `ProjectsProperties.DeleteMatchesFilterIff` states when the
two agree: no match, only matches, or a single match that is the last entry. For
a matching entry followed by another entry, `ProjectsProperties.DeleteTruncatesExample`
shows that nothing is left.

Entries are modelled as values. `indexOf` therefore compares by value. This gives
the same position as reference equality, because no entry in front of the
searched one has its path.

## Model

| member | source | states |
|---|---|---|
| Git.MatchPrefix | src/git.ts:79-87 | The star is taken exactly when the line starts with '*'. A match splits the line into star, whitespace, local branch, whitespace, ref, whitespace and a rest that does not start with whitespace. |
| Git.OptionalCount | src/git.ts:88 | An optional `(marker([0-9]+))?` group takes digits only, and the text is the group's text followed by the rest; a taken digit run is not followed by another digit. |
| Git.MatchTail | src/git.ts:88 | A matched `(: behind N)?(: ahead M)?]` yields digit-only counts and starts with ':' or ']'. |
| Git.MatchTailSound | src/git.ts:88 | The counts a matched tail yields, with their markers and the closing ']', are the text at the start. |
| Git.MatchBranchAndTail | src/git.ts:84-88 | The branch found after `remote/` is a non-empty run without whitespace, '^' or '/', and the counts are digit-only. |
| Git.MatchBranchAndTailSound | src/git.ts:84-88 | The branch and the tail found after `remote/` are the text at the start, in that order. |
| Git.MatchBracket | src/git.ts:84-88 | Remote and branch of a matched bracket are non-empty runs without whitespace, '^' or '/', and its counts are digit-only. `[remote/branch`, the counts with their markers and the closing ']' are the text at the start. |
| Git.DecimalValue | src/git.ts:103-106 | `parseInt` of n digits in base 10 is less than 10^n. |
| Git.ParseGitBranch | src/git.ts:94-121 | isHEAD holds exactly when the line starts with '*'. Local branch and ref are non-empty tokens without whitespace. Counts appear only with an upstream, and never both at once. The upstream has no remote URL yet. |
| Git.GetGitRootFolder | src/git.ts:125-133 | The root is a prefix of the uri. `.git/config` is stripped when the uri ends in `/.git/config`, otherwise `.git/HEAD` when it ends in `/.git/HEAD`; any other uri is returned unchanged. A stripped root ends with '/'. |
| GitProperties.MatchPrefixComplete | src/git.ts:79-87 | On any split of the line with a whitespace run taken whole, the scanner returns exactly that split. |
| GitProperties.ParseComplete | src/git.ts:86-98 | Every line that splits as `^([*]?)\s+(\S+)\s+(\S+)\s+` demands parses, with its star, first token and second token. |
| GitProperties.ParseSound | src/git.ts:86-98 | Every parsed line splits as the pattern demands, around the parsed star, local branch and ref. |
| GitProperties.ParseDefinedIff | src/git.ts:94-98 | parseGitBranch returns undefined exactly when the line does not match the pattern. |
| GitProperties.OptionalCountOf | src/git.ts:88 | An optional `(marker([0-9]+))?` group takes its marker and digits when they are there, and nothing when the marker is absent. |
| GitProperties.MatchTailComplete | src/git.ts:88 | The tail text of any two optional counts matches, whatever follows it, and yields back those counts. |
| GitProperties.MatchBranchAndTailComplete | src/git.ts:84-88 | After `remote/`, a branch followed by a tail yields that branch and its counts, provided no name character follows the tail. |
| GitProperties.MatchBracketComplete | src/git.ts:88 | A well-formed `[remote/branch(: behind N)?(: ahead M)?]` yields its remote, branch and counts. |
| GitProperties.MatchBranchAndTailLongest | src/git.ts:84-88 | Whatever follows it, a branch followed by a tail is found; the branch returned is that one or a longer one, as the greedy `[^\s^/]+` prefers. |
| GitProperties.MatchBracketLongest | src/git.ts:84-88 | Whatever follows it, a well-formed bracket is found with its remote, and with its branch or a longer one. |
| GitProperties.MatchBracketSlash | src/git.ts:84-88 | When the upstream branch contains a '/' and no ']' before it, the bracket group does not match. A ':' inside the branch does not let it match. |
| GitProperties.ParseUpstream | src/git.ts:100-121 | A line with a well-formed bracket records remote and branch. A lone behind count is kept. When both counts are present, only the ahead count survives, since the second assignment overwrites the first. |
| GitProperties.ParseUpstreamSound | src/git.ts:100-121 | A parsed line has an upstream exactly when group 4 matches right after the whitespace that follows the ref. Remote, branch and counts are then that bracket's, which is the text there. Without an upstream there are no counts. |
| GitProperties.DecimalLeadingZero | src/git.ts:103-106 | A leading '0' does not change the value `parseInt` gives. |
| GitProperties.ParseSlashedUpstream | src/git.ts:84-121 | A line whose upstream branch contains a '/' still parses, but records no upstream and no counts. |
| GitProperties.ParseFixtureBehind | tests/git.spec.ts:35-45 | The first parser test line parses to: not HEAD, `master`, `e619393`, upstream origin/master, behind 4. |
| GitProperties.ParseFixtureTracking | tests/git.spec.ts:47-57 | The second parser test line parses to: HEAD, `vplugin-id`, `57f328a`, upstream sunix/master, no counts. |
| GitProperties.ParseFixtureSlashedUpstream | src/git.ts:84-88 | `* fix 57f328a [origin/feature/x: ahead 2]` parses with no upstream and no counts. |
| GitProperties.GitRootOfRepoFile | tests/git.spec.ts:19-22 | The root of `<folder>/.git/config` and of `<folder>/.git/HEAD` is `<folder>/`. |
| GitProperties.GitRootIdempotent | src/git.ts:125-133 | Taking the root of a root changes nothing. |
| Projects.LastSegment | src/projects.ts:18 | `split('/').pop()` is a suffix of the path with no '/'. When it is shorter than the path, a '/' precedes it. |
| Projects.SpliceStart | src/projects.ts:63 | `splice(start)` without a delete count cuts at start when 0 <= start <= length. A negative start counts back from the end, so `splice(-1)` drops the last entry, and a start before the beginning cuts at 0. |
| Projects.IndexOf | src/projects.ts:63 | The result is -1 exactly when the entry is absent; otherwise it is the first position holding the entry. |
| Projects.MatchingIndices | src/projects.ts:15 | The positions `filter` selects, in increasing order: every one matches the path, and every match is among them. |
| Projects.ProjectName | src/projects.ts:18-22 | The name of a new project is never empty and has no '/'. It is the last segment of the path when that is not empty. |
| Projects.NewGitProject | src/projects.ts:21-34 | The created entry has the path, the name of the path, a git source at the location whose parameters are exactly the branch, empty attributes, an empty description and no mixins. |
| Projects.WithGitSource | src/projects.ts:39-50 | An updated entry differs only in its source. The source has the location, its type is kept ("git" when there was none), and its parameters are the old ones with the branch set. |
| Projects.Upserted | src/projects.ts:12-54 | The list grows by one entry exactly when no entry had the path. Entries keep their paths and positions, and afterwards some entry has the path. |
| Projects.Deleted | src/projects.ts:56-67 | The result of deleteGitProject is a prefix of the list with no entry under the path. It is cut at or before every match, and the list is unchanged when nothing matches. |
| Projects.DeletedAfterStep | src/projects.ts:60-64 | One more `splice(indexOf(entry))` takes the list from k splices to k + 1. |
| Projects.ProjectList.UpdateOrCreateGitProject | src/projects.ts:12-54 | It returns the same array, and the new entries are the upsert of the old ones: an entry is appended when none has the path, otherwise every matching entry gets the git source. |
| Projects.ProjectList.DeleteGitProject | src/projects.ts:56-67 | It returns the same array, and the new entries are `Deleted` of the old ones. The loop is proved splice by splice. |
| ProjectsProperties.LastSegmentAfterSlash | src/projects.ts:18 | After a '/', a segment without '/' is the last segment, even when it is empty. |
| ProjectsProperties.ProjectNameOfPath | src/projects.ts:18-22 | A new project is named after the last non-empty segment of its path. |
| ProjectsProperties.ProjectNameFallback | src/projects.ts:22 | An empty path, or one ending in '/', gives the name "new-project". |
| ProjectsProperties.UpsertAppendsWhenAbsent | src/projects.ts:17-35 | With no entry under the path, exactly one entry is appended after the unchanged list. It carries the name, an empty attributes map, a git source with the location and the branch parameter, the path, an empty description and no mixins. |
| ProjectsProperties.UpsertUpdatesInPlace | src/projects.ts:38-53 | With an entry under the path, the length is unchanged and other entries are untouched. Every matching entry gets the location and the branch parameter. It keeps its other parameters, its other fields and its source type; an entry without a source gets type "git". |
| ProjectsProperties.UpsertEstablishesSource | src/projects.ts:12-54 | Afterwards some entry has the path, and every entry under it has the location and the branch. |
| ProjectsProperties.WithGitSourceTwice | src/projects.ts:39-50 | Giving an entry a git source twice is the same as giving it the second one. |
| ProjectsProperties.UpsertLastWriteWins | src/projects.ts:12-54 | Two upserts of one path equal the second one alone. |
| ProjectsProperties.UpsertIdempotent | src/projects.ts:12-54 | Repeating an upsert changes nothing. |
| ProjectsProperties.UpsertKeepsPathsUnique | src/projects.ts:15-35 | A list whose paths are unique keeps them unique. |
| ProjectsProperties.DeleteAgreesWithFilter | src/projects.ts:60-64 | With no match, only matches, or a single match at the end, the delete leaves what removing every match leaves. |
| ProjectsProperties.DeleteDiffersFromFilter | src/projects.ts:60-64 | In every other case the delete leaves strictly fewer entries than removing every match. |
| ProjectsProperties.DeleteMatchesFilterIff | src/projects.ts:60-64 | The delete equals removing every match exactly in those three cases. |
| ProjectsProperties.DeleteTruncatesExample | src/projects.ts:60-64 | For a matching entry followed by a non-matching one, the delete leaves nothing, while removing the matches would leave the second entry. |
| WorkspaceSync.ClonesFor | src/workspace-projects-manager.ts:49-51 | A command exists for a project exactly when its folder, the root and the path joined, does not exist. Each command carries the root, and there are no more commands than projects. |
| WorkspaceSync.UpdateStep | src/workspace-projects-manager.ts:73-92 | The update is skipped exactly when the id or the upstream remote is missing, and then exactly one error is reported. With no projects array it fails without any effect. Whenever it does not push, the projects stay as they were. |
| WorkspaceSync.DeleteStep | src/workspace-projects-manager.ts:94-106 | The delete is skipped exactly when the id is missing, and then exactly the missing-id error is reported. With no projects array it fails without any effect. Whenever it does not push, the projects stay as they were. |
| WorkspaceSync.WorkspaceProjectsManager.SelectProjectToCloneCommands | src/workspace-projects-manager.ts:41-52 | No projects array gives no commands. Otherwise a project gets its command exactly when its folder under the projects root is missing. |
| WorkspaceSync.WorkspaceProjectsManager.Run | src/workspace-projects-manager.ts:29-39 | One watcher is armed. The selection is then executed, after the start message, and nothing is executed when the selection is empty. run resolves unless clones were started and one of them rejected. |
| WorkspaceSync.WorkspaceProjectsManager.ExecuteCloneCommands | src/workspace-projects-manager.ts:54-62 | It records the start message and the batch of clones, in that order. The finish message follows only when every clone resolves, and the call resolves exactly then. |
| WorkspaceSync.WorkspaceProjectsManager.SyncWorkspace | src/workspace-projects-manager.ts:64-71 | It adds one watcher on `**/.git/{HEAD,config}` and does nothing else. |
| WorkspaceSync.WorkspaceProjectsManager.OnFileEvent | src/workspace-projects-manager.ts:66-69 | On an armed watcher, a created or changed file runs the update and a deleted file runs the delete, each on the repository root of the file's path. |
| WorkspaceSync.WorkspaceProjectsManager.UpdateOrCreateGitProjectInWorkspace | src/workspace-projects-manager.ts:73-92 | The outcome, the projects array and the appended effects are exactly those of `UpdateStep`. |
| WorkspaceSync.WorkspaceProjectsManager.DeleteGitProjectInWorkspace | src/workspace-projects-manager.ts:94-106 | The outcome, the projects array and the appended effects are exactly those of `DeleteStep`. |
| WorkspaceSyncProperties.ClonesForAppend | src/workspace-projects-manager.ts:49-51 | The selection keeps the projects' order: it distributes over concatenation. |
| WorkspaceSyncProperties.ClonesForAllMissing | src/workspace-projects-manager.ts:49-51 | When no project folder exists, the i-th command is the i-th project's. |
| WorkspaceSyncProperties.RunClonesIff | src/workspace-projects-manager.ts:33-61 | run clones something exactly when the workspace lists a project whose folder is missing. It shows the finish message exactly when, in addition, every clone resolves. |
| WorkspaceSyncProperties.UpdateStepPushesIff | src/workspace-projects-manager.ts:73-92 | The update pushes exactly when the id is non-empty, the branch has an upstream with a non-empty remote URL, and the projects array exists. A push carries the id and the new projects. Otherwise nothing is pushed and the projects stay as they were. |
| WorkspaceSyncProperties.UpdateRecordsUpstream | src/workspace-projects-manager.ts:86-89 | After a push, the project under the path has the upstream's remote URL and the upstream's branch, not the local branch. |
| WorkspaceSyncProperties.UpdateStepIdempotent | src/workspace-projects-manager.ts:73-92 | A second change event for the same repository yields the same outcome, projects and push. |
| WorkspaceSyncProperties.DeleteStepRemovesPath | src/workspace-projects-manager.ts:94-106 | The delete pushes exactly when the id is non-empty and the projects array exists. After a push no project is left under the path, and what is left is a prefix of the projects. |
| WorkspaceSyncProperties.DeleteStepIdempotent | src/workspace-projects-manager.ts:94-106 | A second delete event for the same repository leaves the projects as they are. |
| WorkspaceSyncProperties.CreateThenDeleteRestores | src/workspace-projects-manager.ts:67-69 | If no project had the path before, a repository that appears and then disappears leaves the projects as they were. |

## Left out

- getCurrentBranch and getRemoteURL (`src/git.ts:36-75`) spawn `git` and `grep` processes. Instead, the branch git reports for a folder, with its remote URL, is a parameter of the update handler.
- `src/file-uri.ts` is not part of this model. `convertToCheProjectPath` is the parameter `convert`, about which nothing is assumed.
- `src/theia-commands.ts` is not part of this model. Executing a clone command is recorded as one `ExecutedClones` effect for the whole batch. Whether every clone resolves is the parameter `allCloned`; when one rejects, the finish message is not shown and run rejects. Which clones had started or finished by then, and the concurrency of `Promise.all`, are not modelled.
- `che.workspace.getCurrentWorkspace` and `che.workspace.update` are the workspace record passed to a handler and the `PushedUpdate` effect. A workspace without a `config` object is not modelled. A missing `projects` array is modelled: it is the `Failed` outcome, the TypeError raised by `filter`.
- `fs.existsSync` is the parameter `pathExists`, read once per selection.
- The handlers are asynchronous. Each one is modelled as running to completion on its own. Interleaved events, startup racing with callbacks, and lost updates between reading and pushing the workspace are not modelled.
- The `grep` in getCurrentBranch can pass on several lines. The parser is modelled on whatever single string it receives, which is how `src/git.ts:94` treats it.
- Each call of syncWorkspace adds another watcher, and every watcher runs its callbacks. `OnFileEvent` models one callback of one watcher.
- Git.DecimalValue: `parseInt` of a digit run is the exact integer. JavaScript's floating-point rounding of runs beyond 2^53 is not modelled.
- Entries of the projects array are values, not shared objects. A caller holding a reference to an entry does not see it change.
- GitProperties.ParseFixtureBehind: stated for every commit subject that starts with a space, the test's own among them, instead of for the one literal line.
- GitProperties.ParseFixtureTracking: stated for every commit subject that starts with a space, the test's own among them, instead of for the one literal line.
- WorkspaceSyncProperties.DeleteStepIdempotent: states that the projects are unchanged, not the repeated push.
- `src/che-workspace-project-manager.ts`, `src/factory-projects-manager.ts`, `src/factory-theia-client.ts` and `src/che-factory-api.ts` are outside the modelled core: the factory flow and the older manager that applies the same clone filter.
