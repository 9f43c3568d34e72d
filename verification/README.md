# Torio verification

Dafny models of Torio's multi-step protocols over shared state, and of its small language
tools, with proofs about every run, every interleaving or every input. `dafny verify
dfyconfig.toml` checks the project.

## What is modelled

**Brain replication** (`GitHistory`, `BrainSync`, `SyncLaws`, `Convergence`, `Interleaving`,
`SyncResults`, `SyncIsARun`, `AnySchedule`). Git is an acyclic commit graph with refs. A bundle carries a head
with all its ancestors, a fetch adds them under `refs/torio/`, a merge is up to date, a fast-forward, a new
commit or a conflict, and `rev-list --count` is the size of a set difference. `BrainSync` has
the commands of one run with every failure; `Interleaving` has the Git steps of any number of
boxes against one hub, with agents committing and an operator merging in between;
`AnySchedule` drops even the order within a run, as two syncs of one box at once do.

**Brain init, its lock, and import** (`InitLock`, `VaultTree`, `VaultStatus`, `SkillFiles`,
`BrainInit`, `BrainImport`). The guest is a tree of files and directories with a repository in
it. Each fixed command is one atomic step that may fail. The lock is a machine over any number of calls; init runs beside a
writer that may put anything at the vault's path before any command; import is one
transaction over the vault and its candidate. A run that is killed is one in which its last
command and the deferred ones fail.

**The project registry** (`Ordering`, `Projects`, `Secrets`, `RegistryText`, `RegistryReading`,
`Registry`, `RegistryRuns`, `RegistryUpdates`, `RegistryStore`). The loops over the project list, the document down
to its characters with the scan for secrets in it, and a machine of any number of
processes under the advisory lock with crashes and power losses. What was never synced is
lost with the power, and directory entries may go back; that is what the sync before the
rename is for.

**The MCP broker's gate** (`AuditLog`, `BrokerGate`, `BrokerRuns`). The audit stream is text,
appended to whatever the file held and read back by a line reader. The gate is a machine over
connections that share one recorder.

**The MCP installer** (`McpGuest`, `McpReport`, `McpInstall`, `CodexRequirements`). The state of a
guest, what a run makes of it, and the probe-then-change methods that do.

**Language tools** (`DocsShift`, `DocsText`, `DocsIncludes`, `DocsMarkers`, `DocsLeftovers`,
`DocsByLine`, `DocsBuild`, `DocsFitting`, `DocsOpenHeadings`, `ShellHighlight`, `JsonKeys`, `ShellQuote`). Each
is proved against its reader: a heading reader, the marker pattern, a page reader, the JSON
grammar, and the shell's quoting rules. Includes are read in the text, as the pattern reads
them, not line by line.

## Assumptions

- A command that reports failure had no effect on what the model tracks, in particular on the
  pair being exchanged.
- Nobody else writes the vault between its copy into the candidate and the exchange.
- After a snapshot the work tree is clean: there are no ignore rules.
- Digests are injective, so a digest stands for the bytes it is of.
- The encoding of an audit record has no line break and tells the record.
- Decoding what was written as the registry gives the record it was written from; that its bytes
  tell the record is proved (`RegistryReading.TextTellsTheProjects`).
- The decimal digits a marker's level may be written with are those of Unicode 14.
- Codex resolves one layer of declarations, in which a name has one entry.

## Where the code promises less than it seems to

Each is stated as an exact condition, with an input that shows it.

- A conflicting outbound merge also aborts a merge the operator had left unfinished in the hub
  (`SyncLaws.StoppedOutboundLeavesTheHub`, `SyncLaws.OperatorsMergeIsAborted`).
- A hub whose first detaching fails keeps its remote for good
  (`SyncLaws.RemoteAppearsExactlyWhenDetachFails`).
- Two recoveries of one stale lock can both end up holding it
  (`InitLock.StepKeepsExclusion`, `InitLock.TwoRecoveriesCanBothHold`), and a refresh can then
  leave a plain file that shuts every later call out (`InitLock.PlainFileAppearsExactlyThen`,
  `InitLock.RefreshCanTouchTooLate`).
- An import can return an error with the new vault in place, when only the release of the lock
  failed (`BrainImport.Guest.Settle`). What a failed rollback or a killed run kept at the
  candidate's path is removed by the next import that gets the lock, even one that refuses its
  payload (`BrainImport.Guest.Import`).
- A plain file at the vault's path passes for an uninitialized Brain: init fails on it, an import
  replaces it, and the clean-up removes it. It is the one thing an import loses
  (`BrainImport.OnlyAPlainFileIsLost`, `BrainImport.PlainFileGivesWay`).
- A payload the Brain already holds cannot be imported, because Git has nothing to commit
  (`BrainImport.OnlyNewContentIsImported`, `BrainImport.ScaffoldItselfIsRefused`). An import where
  no directory exists yet fails at the exchange (`BrainImport.Guest.ExchangeImportCandidate`).
- A dry run with a destination counts the paths that are taken; the run itself refuses whenever the
  destination is there (`BrainImport.HasRoomExactly`, `BrainImport.DryRunDoesNotForetell`).
- The branch of init that resumes from drift is dead (`VaultStatus.InspectStatus`).
- The audit file is opened as it is: after a torn tail and a restart, the first record is not on
  a line of its own, though its call is let through (`AuditLog.OwnLinesNeedAWholeFile`,
  `BrokerRuns.RestartAfterATornTail`).
- An install interrupted after its files are in place leaves the old broker running, and the
  next run can report success and no change (`McpInstall.InstallAfterInterruption`,
  `McpGuest.InterruptedInstallKeepsTheOldBroker`).
- An install that fails while it rewrites an agent's Codex declarations can have changed the
  guest and report that it did not (`McpInstall.Adapter.ProvisionMCPBrokerFor`,
  `McpReport.UnreportedWithoutFaults`, `McpReport.UnreportedChange`).
- A heading level of 0 is accepted, is never reached, and moves deep headings further with every
  pass (`DocsShift.ShiftingIsIdempotent`, `DocsText.LevelZeroKeepsMoving`). Retitling can rename a
  comment inside fenced code (`DocsBuild.RetitlingMayHitFencedCode`, `DocsBuild.CommentIsRetitled`).
- An include marker's quoted heading runs to the next quote, on whatever line. A heading left open
  before an include can be closed by the included block, so expansion can leave a marker behind
  and fail the second time (`DocsOpenHeadings.PagesAreSafeExactly`,
  `DocsOpenHeadings.BlocksAreSafeExactly`, `DocsOpenHeadings.MarkerIsLeft`), and a title over lines
  can bring a marker with it (`DocsOpenHeadings.TitleCarriesAMarker`). Where every line closes the
  headings it opens, none of this happens (`DocsBuild.PagesExpand`).

## Model

| member | source | states |
|---|---|---|
| GitHistory.AncestryIsAntisymmetric | internal/brain/sync.go:455-467 | two commits that reach each other are one commit, on which every fast-forward and zero-distance claim rests |
| GitHistory.CountRangeIsZeroExactlyWhenReachable | internal/brain/sync.go:398-416 | `rev-list --count A..B` is 0 exactly when A already reaches B |
| GitHistory.MergeJoinsBothSides | internal/brain/sync.go:348-380 | a merge that succeeds reaches both sides and leaves none unfinished; one that conflicts leaves main alone; it fails exactly on a real conflict or an unfinished merge |
| GitHistory.MergeOfDescendantFastForwards | internal/brain/sync.go:283-300 | merging a commit that reaches main moves main to exactly that commit, whatever a content merge would do |
| GitHistory.MergeKeepsConnection | internal/brain/sync.go:348-380 | a repository that holds all history of its refs still does after a merge of one of them |
| GitHistory.CommitAllCommits | internal/brain/sync.go:152-169 | committing everything makes one commit that was in no history there, of that content and those parents, and leaves nothing unsaved |
| BrainSync.Manager.SnapshotGuestVault | internal/brain/sync.go:152-169 | a snapshot is one new commit of the run's content, on main and on the other side of an unfinished merge, taken exactly when something is unsaved and neither command fails; otherwise the vault is as it was |
| BrainSync.Manager.EnsureHubVault | internal/brain/sync.go:323-346 | the hub is made once; a clone whose detaching fails stays, with its remote |
| BrainSync.Manager.MergeHost | internal/brain/sync.go:352-365 | merged, abandoned, or neither, on the hub, for every way the commands can fail |
| BrainSync.Manager.MergeGuest | internal/brain/sync.go:367-381 | the same for a guest's vault |
| BrainSync.Manager.SyncOutbound | internal/brain/sync.go:172-247 | the hub, the report and the error of the outbound half, on every failure path |
| BrainSync.Manager.SyncInbound | internal/brain/sync.go:250-301 | the vault, the report and the error of the inbound half, on every failure path |
| BrainSync.Manager.Sync | internal/brain/sync.go:98-145 | the whole run is the specified one, early returns included; the laws below are about that specification |
| SyncLaws.SyncLosesNoHistory | internal/brain/sync.go:98-301 | whatever fails, everything a main could reach it still reaches, repositories stay whole, and the vault's view of the hub stays behind the hub |
| SyncLaws.InboundNeverConflictsAlone | internal/brain/sync.go:229-300 | an inbound conflict implies an outbound one, and without one the vault ends clean, on the hub's commit, at distance 0 and 0 |
| SyncLaws.StoppedOutboundLeavesTheHub | internal/brain/sync.go:352-365 | a conflicting outbound merge leaves the hub as the fetch left it if and only if the operator had no merge unfinished there; otherwise it aborts that one |
| SyncLaws.OperatorsMergeIsAborted | internal/brain/sync.go:352-365 | it happens: a hub with an unfinished merge, a vault, and the run that reports a conflict and leaves the hub without that merge |
| SyncLaws.SyncAndDescribe | internal/brain/sync.go:455-467 | after a run without an outbound conflict the vault describes itself as 0 ahead and 0 behind |
| SyncLaws.ReportedCountsAreExact | internal/brain/sync.go:229-299 | ToHub is what the hub lacked, ToGuest what the vault lacked, plus one exactly when both sides had moved |
| SyncLaws.FirstSyncMakesTheHub | internal/brain/sync.go:215-228 | the run that makes the hub carries everything, counts nothing, and ends level |
| SyncLaws.RemoteAppearsExactlyWhenDetachFails | internal/brain/sync.go:323-346 | a remote appears exactly when the run that makes the hub cannot detach it, and no later run takes it away |
| SyncLaws.InboundFastForwards | internal/brain/sync.go:283-300 | a vault whose history the hub has moves to exactly the hub's commit and its count is the distance |
| SyncLaws.JoinCountsOneMore | internal/brain/sync.go:283-299 | the commits a join adds to one side are the other side's plus the join itself |
| SyncResults.UnsavedWorkIsSaved | internal/brain/sync.go:145-169 | a run says it took a snapshot exactly when it got there with unsaved work and could save it; that work is then a new commit the vault never loses, and without an error or an outbound conflict the hub has it |
| SyncResults.SyncExactly | internal/brain/sync.go:98-301 | in terms of commits and failing commands alone: when a run works, where both mains and both refs end, and when each conflict is reported |
| SyncResults.OtherBoxesAreRefused | internal/brain/sync.go:105-117 | a box without a Brain and one in drift are refused, each by its own kind, and nothing is touched |
| SyncResults.NewCommitsShow | internal/brain/sync.go:455-467 | one commit the other side lacks shows as 1 and 0, or 0 and 1 |
| Convergence.TwoPassesConverge | internal/brain/sync.go:98-301 | every box synced once and once more, in any order and any number of times: all mains are one commit reaching everything any of them had |
| Convergence.FurtherPassesAreQuiet | internal/brain/sync.go:229-300 | from there on every visit of every pass reports nothing moved and moves nothing |
| Interleaving.EveryInterleavingIsSafe | internal/brain/sync.go:152-380 | for any number of boxes, any interleaving of their Git steps, any failure or stop, agents committing and an operator merging: no reachable commit is lost and every hub ref trails the hub |
| Interleaving.StepIsSafe | internal/brain/sync.go:152-380 | one step of any actor keeps the invariant of all boxes and loses nothing |
| Interleaving.InboundConflictNeedsOutbound | internal/brain/sync.go:229-300 | in every reachable state an inbound abort follows an outbound conflict, and a run without one only fast-forwards |
| Interleaving.FetchesOnlyMoveForward | internal/brain/sync.go:303-318 | no reachable fetch has to move a ref sideways, so refspecs without a leading plus suffice |
| SyncIsARun.SyncIsAnInterleaving | internal/brain/sync.go:98-145 | a sequential run with any failures leaves exactly what some run of the step machine leaves, so the interleaving theorems cover it |
| AnySchedule.EveryScheduleIsSafe | internal/brain/sync.go:98-380 | nothing keeps two syncs of one box apart, and nothing has to: in any order of the commands of any number of syncs of any boxes, with bundles old or new and agents and the operator at work in between, no reachable commit is lost, no repository lacks history of a ref, and every ref trails the main it was taken from |
| AnySchedule.StepIsSafe | internal/brain/sync.go:98-380 | one command of anybody keeps that invariant and loses nothing |
| AnySchedule.RunsAreSchedules | internal/brain/sync.go:98-145 | each step of a run in the machine of separate runs is at most one such command, with the same effect |
| InitLock.StepKeepsExclusion | internal/brain/manager.go:831-956 | a step keeps exclusion if and only if it does not move aside the directory of a call still at work |
| InitLock.AtMostOneHolder | internal/brain/manager.go:831-956 | any calls, any interleaving, any failures and stops: while no lock directory gets stale at most one call holds the lock |
| InitLock.FreshLocksAreNeverTaken | internal/brain/manager.go:875-919 | while no directory reaches the stale age nobody gets to the point of moving one |
| InitLock.OnlyTheMakerRemoves | internal/brain/manager.go:921-956 | under the same condition whoever takes the directory away made it |
| InitLock.StaleLockIsTakenOver | internal/brain/manager.go:831-919 | a lone call takes what is at the path over exactly when it is a stale directory with the right owner and mode |
| InitLock.TouchedFileShutsOut | internal/brain/manager.go:940-945 | a refresh whose directory is moved away between its two commands leaves a plain file that no later call can recover |
| InitLock.PlainFileAppearsExactlyThen | internal/brain/manager.go:940-945 | a plain file appears at the path exactly when a refresh's touch takes effect where nothing is |
| InitLock.RefreshCanTouchTooLate | internal/brain/manager.go:891-945 | it happens: from every stale lock whose holder is still at work there is a run that leaves that file, and whoever comes later gives up, however late |
| InitLock.TwoRecoveriesCanBothHold | internal/brain/manager.go:891-907 | the condition is needed: from every stale lock two recoveries have a run after which both hold it |
| InitLock.FreeLockIsTaken | internal/brain/manager.go:831-873 | a lone call takes a free lock with its first attempt |
| InitLock.ReleaseFreesTheLock | internal/brain/manager.go:947-956 | releasing the lock one holds leaves it free |
| InitLock.FailedCallUndoes | internal/brain/manager.go:849-873 | a call that made the directory and cannot finish removes it |
| InitLock.GuestLock.AcquireInitLock | internal/brain/manager.go:831-873 | the two-attempt loop is a run of the machine, an exit of 1 told from other failures; untroubled it takes a free lock or one left for over ten minutes and leaves any other; a held lock carries the caller's token, and what it could not finish it removes |
| InitLock.GuestLock.RecoverStaleInitLock | internal/brain/manager.go:875-919 | recovery is a run of the machine to the second attempt or to giving up |
| InitLock.GuestLock.ReleaseInitLock | internal/brain/manager.go:947-956 | release is a run of the machine; a lock with another token is left as it is, and untroubled the caller's own is gone |
| InitLock.GuestLock.RefreshInitLock | internal/brain/manager.go:940-945 | refresh is a run of the machine, of two commands: the age is reset exactly when the lock is the caller's and neither fails |
| BrainInit.Manager.Init | internal/brain/manager.go:114-249 | whatever a concurrent writer does and wherever the run fails or stops, no command of it loses what it finds; undisturbed it ends initialized exactly from a recoverable place, and an empty one then holds the templates, byte for byte, and one commit; drift, Brains and foreign vaults are left exactly alone; success leaves the payload's skill |
| BrainInit.Manager.InitLocked | internal/brain/manager.go:133-248 | the same for the part under the lock, with what it reports as created |
| BrainInit.Manager.EnsureVault | internal/brain/manager.go:133-150 | a missing directory is made and looked at again; a plain file in its place is an error |
| BrainInit.Manager.BuildStaging | internal/brain/manager.go:174-227 | what is staged is the whole committed scaffold, whatever an earlier run left there, and the vault is not touched |
| BrainInit.Manager.PromoteStaging | internal/brain/manager.go:229-238 | only an empty directory gives way, and what takes its place is the scaffold |
| BrainInit.Manager.InstallSkill | internal/brain/manager.go:284-355 | success leaves the payload's skill and description, byte for byte, and reports an update exactly when they were not there; a link is refused and nothing is done behind it; wherever it fails or stops, files are whole, old or new, and the new skill is in place only once the superseded one is gone; exactly when an undisturbed run succeeds |
| BrainInit.Manager.RemoveLegacySkill | internal/brain/manager.go:381-407 | only the superseded skill goes, its directory only when empty, and a link there is refused |
| BrainInit.Manager.WriteSkill | internal/brain/manager.go:326-345 | the description and the skill, each whole, in directories of their own; exactly when nothing is in the way |
| SkillFiles.AdvancingKeepsReady | internal/brain/manager.go:284-355 | what an interrupted install leaves, the next one can finish |
| SkillFiles.ProbeExactly | internal/brain/manager.go:416-502 | a skill is current exactly when its bytes, and its description's, are the payload's, in directories and files of the right owner and mode, and the superseded one is gone; and a link is found exactly when there is one |
| BrainInit.RerunFinishes | internal/brain/manager.go:114-249 | after a run stopped or failed anywhere, an undisturbed rerun ends with a Brain and the current skill and keeps what the first run found |
| VaultStatus.InspectStatus | internal/brain/manager.go:597-784 | whatever happens at the path between the commands of an inspection, a vault found in drift is never one that init resumes from; on a place that stays as it is, the state is that place's |
| BrainInit.ScaffoldIsABrain | internal/brain/manager.go:181-222 | the staged scaffold satisfies every initialized postcondition |
| BrainInit.ScaffoldIsFresh | internal/brain/manager.go:181-222 | it is the canonical directories and files, each file its template, and nothing else, committed once |
| BrainImport.Guest.Import | internal/brain/transfer.go:71-237 | the vault's path only ever holds the old thing or the finished candidate; no file of a Brain is changed or taken away unless the Brain is the templates in one commit, and a Brain that is not, with something where the payload is to go, is refused; a foreign vault is not touched; it ends as the candidate only if the last checks passed or the exchange back failed or the run was killed, and then the old tree is at the candidate's path; what a first import leaves; a dry run changes nothing and counts the paths that are taken; exactly when an undisturbed run succeeds; a Brain's files and history survive every run, and what a successful one finds is kept if and only if it is not a plain file; once it has the lock, a run removes what an earlier one left at the candidate's path |
| BrainImport.Guest.Imports | internal/brain/transfer.go:71-237 | however many imports follow one another, each failing or killed anywhere, no file a Brain held or committed is lost from its vault |
| BrainImport.OnlyAPlainFileIsLost | internal/brain/transfer.go:393-507 | the candidate keeps all files and history of what it replaces if and only if that was not a plain file |
| BrainImport.PlainFileGivesWay | internal/brain/manager.go:608-615 | it happens: an import of one note is accepted over any plain file |
| BrainImport.Guest.ImportLocked | internal/brain/transfer.go:169-236 | one exchange at most, of a verified and admitted payload's candidate |
| BrainImport.Guest.Settle | internal/brain/transfer.go:143-168 | the deferred rollback: the vault goes back exactly when it was exchanged and the exchange works, and a failed release turns success into an error |
| BrainImport.Guest.Admit | internal/brain/transfer.go:169-204 | drift is refused, and so is a Brain with something where the payload is to go, unless its files and its one commit are the templates; everything else is admitted; the conflicts are counted |
| BrainImport.Guest.PrepareGuestImport | internal/brain/transfer.go:239-288 | success means a faithful staging, and whatever an earlier run kept at the candidate's path is gone |
| BrainImport.Guest.VerifyGuestPayload | internal/brain/transfer.go:327-355 | the four checks pass if and only if the staged files are the manifest's, byte for byte, with no link or special file |
| BrainImport.ChecksAreEnough | internal/brain/transfer.go:327-355 | count and checksums of distinct paths rule out any missing, extra or altered file |
| BrainImport.Guest.ExchangeImportCandidate | internal/brain/transfer.go:555-566 | both paths change hands in one step, or neither does |
| BrainImport.Guest.ImportConflicts | internal/brain/transfer.go:568-584 | the count of manifest paths already there |
| BrainImport.Guest.BuildExistingImportCandidate | internal/brain/transfer.go:457-507 | a built candidate is the specified one for a Brain |
| BrainImport.Guest.BuildFirstImportCandidate | internal/brain/transfer.go:393-455 | a built candidate is the specified one for no Brain |
| BrainImport.ExistingCandidateIsABrain | internal/brain/transfer.go:457-507 | a finished candidate for a Brain is a clean Brain again, so on a native file system the final check passes |
| BrainImport.FirstCandidateIsABrain | internal/brain/transfer.go:393-455 | a finished first candidate is a clean Brain, whatever the payload brings |
| BrainImport.ImportConservesFiles | internal/brain/transfer.go:179-204 | every candidate built for a Brain with room keeps every old file with its bytes unless the Brain's files and its one commit are the templates, has every payload file at its place, nothing else, and the old files in its history |
| BrainImport.FirstCandidateIsWhole | internal/brain/transfer.go:393-455 | a first import is the payload below its destination plus the scaffold files it does not bring, in one commit |
| BrainImport.OnlyNewContentIsImported | internal/brain/transfer.go:490-506 | a placed payload gets a candidate if and only if some file of it is new or different; otherwise Git has nothing to commit and the import fails |
| BrainImport.ScaffoldItselfIsRefused | internal/brain/transfer.go:490-506 | it happens: the untouched scaffold's own README is welcome, staged and verified, and then refused |
| BrainImport.HasRoomExactly | internal/brain/transfer.go:178-204 | there is room exactly when nothing is where the payload is to go, or, at the root, when the Brain is still what init made |
| BrainImport.PristineIsAsMade | internal/brain/transfer.go:509-553 | the pristine check passes exactly when the files are the templates, byte for byte, and so is the only commit |
| BrainImport.DryRunDoesNotForetell | internal/brain/transfer.go:114-136 | a dry run into a Brain's own inbox reports no conflict where the run itself is refused |
| BrainImport.NewFilesAreAccepted | internal/brain/transfer.go:457-507 | files that are new to a Brain are accepted at its root when they meet nothing, and below a new name always |
| Projects.ValidateProjects | internal/config/projects.go:211-226 | accepts exactly at most 64 valid entries with distinct ids, and otherwise names the first fault |
| Projects.WithProject | internal/config/projects.go:99-126 | succeeds exactly when nothing clashes, the result is valid and so are the document's other fields; appends, stamps the version, and names the first project in the way |
| Projects.WithUpdatedRemote | internal/config/projects.go:140-173 | succeeds exactly when the id is there, the corrected list could stand and the other fields are valid; changes one remote and names the first entry in the way |
| Projects.Repoint | internal/config/projects.go:144-163 | the loop stops at the first entry in the way, with its error, or has corrected the copy |
| Projects.WithoutProject | internal/config/projects.go:179-202 | succeeds exactly when the id is there and the rest of the document is valid |
| Projects.RemovalIsAlwaysPossible | internal/config/projects.go:179-202 | in a valid registry a removal is never refused for what the others hold |
| Projects.RemovalUndoesAddition | internal/config/projects.go:99-202 | adding and removing gives the list back, order included |
| Projects.AdditionUndoesRemoval | internal/config/projects.go:99-202 | a removed project can be added back strictly if and only if nobody shares its remote, and the projects are then the same |
| Projects.CorrectionsReplaceEachOther | internal/config/projects.go:140-173 | a second correction replaces the first, and correcting back restores the list |
| Projects.CorrectionKeepsTheRegistry | internal/config/projects.go:140-173 | in a valid registry only the entry's own rule and a shared remote can refuse a correction |
| Projects.SharedRemotesCanBeAllowed | internal/config/projects.go:99-173 | with an explicit decision only the entry's rule, its id and the number of projects stand in the way |
| Projects.StrictOperationsKeepRemotesApart | internal/config/projects.go:99-173 | without an explicit decision no two projects come to share a remote |
| Registry.OneSetOneDocument | internal/config/registry.go:138-166 | two valid lists are written as the same bytes if and only if they hold the same projects |
| Registry.WrittenReadsBack | internal/config/registry.go:154-240 | every valid list can be written, nothing else can, and what is written reads back as the list sorted by id, the scan of the whole text included |
| Registry.ValidDocumentsPassTheScan | internal/config/registry.go:210-240 | the scan of a whole document refuses none whose entries are valid |
| RegistryText.DocumentTripsExactlyWhenAFieldDoes | internal/config/registry.go:163-171 | the rendered text trips the secret scan if and only if a field of some project does: quotes, keys, layout and escapes neither make nor hide a secret |
| RegistryText.EscapingKeepsTheScan | internal/redact/redact.go:23-30 | escaping a string without control characters neither makes nor hides a secret, whatever precedes it |
| RegistryText.EscapedControlsCanTrip | internal/config/projects.go:386-396 | the rule against control characters is needed for that: a label in which the scan sees nothing, and its escape, in which it sees a bearer token |
| RegistryReading.TextTellsTheProjects | internal/config/registry.go:163-171 | two documents are equal bytes if and only if they have the same version and the same projects in the same order, whatever characters are in them |
| Secrets.BreakersSeparate | internal/redact/redact.go:23-30 | no secret shape reaches across a quote, a backslash or another escaped character, so texts put together with one trip exactly when a part does |
| Secrets.SecretsAreOrdinary | internal/redact/redact.go:23-30 | every match of the six patterns is at least fifteen characters, begins with one of seven, and holds no escaped character |
| Registry.RewritingChangesNothing | internal/config/registry.go:138-166 | writing a list that was read gives the document it was read from |
| Registry.SortingKeepsValidity | internal/config/registry.go:154-161 | validating after sorting is validating before |
| Ordering.SortedListsAreEqual | internal/config/registry.go:157-158 | an ascending list is determined by its elements, so the sorting algorithm does not matter |
| RegistryRuns.EveryRunIsSafe | internal/config/registry.go:95-110 | for any processes, any interleaving, crashes and power losses anywhere: every value of the file is what its writer wanted of the value before |
| RegistryRuns.FileIsAlwaysWhole | internal/config/storage.go:22-60 | a reader at any moment sees the old file or one complete, sorted, valid document that is on disk |
| RegistryRuns.FileIsTheReplay | internal/config/registry.go:95-110 | the file is the committed updates applied one after another in lock order; none is lost |
| RegistryUpdates.CommitsApplyTheirUpdate | internal/config/registry.go:92-110 | in every run, each committed update was asked about exactly the projects listed before it, and the file that followed lists exactly its answer |
| RegistryUpdates.NothingAddedIsLost | internal/config/registry.go:92-110 | when updates only add, whatever any committed one added, and all it read, is in the file at the end |
| RegistryRuns.SuccessIsCommitted | internal/config/registry.go:95-110 | while the power stays on, success means committed, refused or unchanged means not, and nothing commits twice |
| RegistryRuns.ReadBackSucceeds | internal/config/registry.go:191-204 | under the lock the read-back always finds what was renamed: the update succeeds and the next process reads exactly that |
| RegistryRuns.LegacyMovesWithTheFirstUpdate | internal/config/registry.go:65-90 | the legacy list counts until the first update that changes it, which moves all of it; after that it is never read |
| RegistryRuns.StepKeepsSafe | internal/config/registry_lock_unix.go:11-22 | each atomic step, crash and power loss keeps the invariant of lock, file and temporaries |
| RegistryStore.Store.UpdateRegistry | internal/config/registry.go:92-110 | what the caller answers to the projects the file holds decides: an error or an answer that cannot be a registry leaves the file, the same list is no change, any other list is, sorted, exactly what the next file lists, unless something breaks before the rename; an unreadable file is left |
| RegistryStore.Store.WriteFilePrivate | internal/config/storage.go:22-60 | all or nothing at the path, on disk before it is renamed, and no temporary left unless removing it failed or the process died |
| RegistryStore.Store.WriteRegistry | internal/config/registry.go:154-204 | written, and then reported as success exactly when it reads back |
| AuditLog.JsonRecorder.Record | internal/mcpbroker/audit.go:53-75 | acknowledges exactly a complete, error-free, synced line on a sound stream, and latches on anything else |
| AuditLog.StreamTellsTheDecisions | internal/mcpbroker/audit.go:45-75 | whoever reads the stream finds what the file held, then the acknowledged records, one a line and in order, and after a failure at most one more, never a piece of one; only the first can continue a line torn before |
| AuditLog.OwnLinesNeedAWholeFile | cmd/torio-mcp-broker/daemon.go:240-258 | the acknowledged records are on lines of their own if and only if the file ended in a complete line when it was opened |
| AuditLog.WhatIsLeftToTheNext | internal/mcpbroker/audit.go:53-75 | a recorder that never failed leaves whole lines to the next process; one that failed does exactly when all or nothing of its last line arrived |
| BrokerGate.NewServiceServer | internal/mcpbroker/service.go:51-114 | comes up exactly when the whole grant can be served, and advertises the grant in order, with the upstream's own tools |
| BrokerGate.IndexTools | internal/mcpbroker/service.go:76-84 | refuses exactly an unnamed tool or a repeated name |
| BrokerGate.GrantWrites | internal/mcpbroker/service.go:86-92 | refuses exactly a granted tool the upstream does not have |
| BrokerGate.AdvertisementIsStable | internal/mcpbroker/service.go:103-112 | the order and paging of the upstream's answer leave no trace in what is advertised |
| BrokerRuns.EveryCallIsOnRecord | internal/mcpbroker/service.go:170-190 | over every interleaving of connections, at every moment, each upstream call has an allowed, acknowledged record of its own for that service, tool and peer |
| BrokerRuns.OnlyGrantedToolsAreForwarded | internal/mcpbroker/service.go:147-190 | a forwarded call names a tool some connection of that service and peer was granted, and its line is complete in the stream if the file the daemon opened ended in one |
| BrokerRuns.RestartAfterATornTail | cmd/torio-mcp-broker/daemon.go:240-258 | the condition is needed: a daemon whose first write is cut short, the next one on the same file, and the call it forwards, whose line is glued to the torn tail |
| BrokerRuns.FailureIsFinal | internal/mcpbroker/audit.go:45-75 | after the first failed write or sync nothing is recorded and nothing more is let through |
| BrokerRuns.EveryDecisionIsOnRecord | internal/mcpbroker/service.go:168-190 | in every run the acknowledged records are, one by one and in order, the tool calls that arrived, granted or not, up to the first record that could not be kept |
| BrokerRuns.AllowedCallsAreForwarded | internal/mcpbroker/service.go:168-190 | and unless a call is given up, what the records allow is what was forwarded or waits to be |
| BrokerRuns.Broker.AuditMiddleware | internal/mcpbroker/service.go:168-190 | a tool call is recorded, with its connection's service and peer, whether it is granted or not, and passes exactly when its record lasted and it is granted |
| BrokerRuns.Broker.ForwardTool | internal/mcpbroker/service.go:147-168 | only what was let through goes upstream, once, under its own name |
| McpInstall.Adapter.ProvisionMCPBrokerFor | internal/lima/mcpinstall.go:55-79 | success makes the guest exactly what policy and payload say and reports a change exactly when there was something to do; for any failing commands, a run changes something without reporting it exactly under the stated condition, and then only an agent's declarations, to the stated rest; exactly when an undisturbed run succeeds |
| McpReport.UnreportedWithoutFaults | internal/lima/codexmcp.go:160-213 | when no command fails, a run changes the guest unreported if and only if all before the declarations is in order, the listing is not exact, the first declared name is usable and a later one is not |
| McpReport.UnreportedChange | internal/lima/codexmcp.go:160-213 | it happens: a box with two declarations, of which the first is removed, the second is refused, and no change is reported |
| McpReport.BrokenRewritesShow | internal/lima/codexmcp.go:176-213 | the condition on the declarations: rewriting breaks off and leaves something else than it found |
| McpInstall.InstallTwice | internal/lima/mcpinstall.go:55-79 | whatever the first run met with, once it succeeded the second changes nothing, reports Changed and RestartRequired false, and succeeds unless a command of it fails |
| McpInstall.Upgrade | internal/lima/mcpactivate.go:101-133 | an upgrade that succeeds with every login present never leaves the earlier broker running |
| McpGuest.SecondRunHasNothingToDo | internal/lima/mcpinstall.go:55-130 | what a run leaves is a fixed point of the next one, on every guest a run can succeed on |
| McpGuest.RuntimeFollowsTheLogins | internal/lima/mcpactivate.go:67-133 | with every login present the broker ends enabled, active and on the current policy; with one missing neither enabled nor active |
| McpGuest.NewPayloadIsStarted | internal/lima/mcpactivate.go:101-133 | with every login present, a run that found a file different has started the broker once, from the new program under the new unit on the current policy; one that found the client configuration different has started it too; otherwise it is started exactly when it did not run or ran on another policy |
| McpGuest.RunLeavesEverythingInOrder | internal/lima/mcpinstall.go:81-130 | files, client configuration, groups, users and directories are as the payload and the policy say, and with a login missing the broker is stopped and never started |
| McpGuest.NothingToDoMeansNoChange | internal/lima/mcpinstall.go:81-130 | a run changes the guest exactly when there was something to do |
| McpGuest.CurrentPayloadNeedsARestart | internal/lima/mcpactivate.go:101-133 | a finished run ends on the current payload exactly when it found files to replace, or was outdated otherwise and systemd had the unit, or found the broker on that payload already |
| McpInstall.InstallAfterInterruption | internal/lima/mcppayload.go:53-68 | a run that fails to reload systemd and the run after it, from every guest: what they leave, and exactly when the broker then is on the current payload |
| McpGuest.InterruptedRunsAgain | internal/lima/mcppayload.go:53-68 | what an interrupted run leaves, the next one can work on, with that same exact condition |
| McpGuest.InterruptedInstallKeepsTheOldBroker | internal/lima/mcppayload.go:53-68 | it happens: a healthy guest, the interrupted install of another broker, and the next run, which finds nothing to do while the earlier program runs |
| McpInstall.Adapter.ProvisionBoundary | internal/lima/mcpinstall.go:81-130 | groups, user, home and policy directory are put in order, changes are reported even on failure, and exactly when it succeeds |
| McpInstall.Adapter.InstallPayloadFiles | internal/lima/mcppayload.go:34-68 | all three files in place and the unit reloaded exactly when one differed |
| McpInstall.Adapter.EnsureInstallFile | internal/lima/mcppayload.go:97-153 | one file left alone or replaced whole, and a failure leaves the old or the new one |
| McpInstall.Adapter.ReconcileClientConfig | internal/lima/mcpclientconfig.go:26-91 | the document and the declarations end as specified, with an exact change report on success, and exactly when a failure hides a change |
| McpInstall.Adapter.ReconcileDeclarations | internal/lima/codexmcp.go:176-213 | declarations are left alone exactly when the listing is exact, and otherwise taken out and added one by one up to the first that breaks |
| McpInstall.CodexEntriesExact | internal/lima/codexmcp.go:100-122 | accepts if and only if the entries are a permutation of the policy's, through the relay and permitted |
| McpInstall.EveryServiceIsEnough | internal/lima/codexmcp.go:100-122 | equal counts and one exact entry a service leave no room for another |
| McpInstall.Adapter.OAuthPending | internal/lima/mcpactivate.go:146-175 | counts exactly the services without a private session, and fails exactly on drifted ownership |
| McpInstall.Adapter.ReconcileRuntime | internal/lima/mcpactivate.go:67-133 | the runtime's whole new state, a change reported exactly when a command was needed, and one start from the installed file whenever the transport changed |
| CodexRequirements.RenderCodexRequirements | internal/lima/codexmcp.go:39-58 | the rendered text, trailing newlines included |
| CodexRequirements.CodexIsUnambiguous | internal/lima/codexmcp.go:39-58 | the document's own fixed text closes a name with its quote, ends an entry one way, and cannot be taken for the empty table |
| CodexRequirements.AllowlistTellsTheServices | internal/lima/codexmcp.go:60-66 | two rendered allowlists are equal bytes if and only if they permit the same services |
| DocsShift.ShiftHeadings | scripts/build_docs.py:125-165 | the two loops compute the specified text, for every level and every fence |
| DocsShift.ShiftingSetsTheTop | scripts/build_docs.py:125-165 | a text with a heading ends with its shallowest one at the level asked for if and only if that is 1 to 6 |
| DocsShift.ShiftingIsIdempotent | scripts/build_docs.py:125-165 | shifting again changes nothing if and only if the level is not 0 or no heading lies two or more below the shallowest |
| DocsShift.HeadingsMoveTogether | scripts/build_docs.py:149-165 | every heading's level moves by the same amount, within 1 and 6 |
| DocsShift.OtherTextStays | scripts/build_docs.py:149-165 | a heading keeps its text; every other line, fenced or not, is unchanged |
| DocsText.MarkdownIsCoherent | scripts/build_docs.py:61-62 | what the generator writes as a heading of some level it reads as one, with the text it had |
| DocsText.MarkdownShifts | scripts/build_docs.py:125-165 | both facts for the generator's own Markdown |
| DocsText.LevelZeroKeepsMoving | scripts/build_docs.py:125-165 | with level 0 it is not so: a text of two headings that changes again the second time |
| DocsMarkers.MarkersAreRead | scripts/build_docs.py:53-59 | the pattern reads a marker off one line, and behind a line that opens a heading and does not close it exactly when the next quote, on whatever line, is followed by the end of a marker |
| DocsMarkers.WrittenMarkersReadBack | scripts/build_docs.py:53-59 | every marker that can be written, its heading over any lines, is read back as itself before a new line or the end |
| DocsIncludes.ExpansionFailsOnlyOnFatalChains | scripts/build_docs.py:249-267 | for every page and all blocks, expansion fails if and only if some chain of markers, each in the fitted block of the one before, names an unknown block or goes more than 16 deep |
| DocsIncludes.IncludesAreReplaced | scripts/build_docs.py:255-267 | each block, fitted as its marker says, takes the marker's place, and every other line stays |
| DocsLeftovers.NoMarkerIsLeft | scripts/build_docs.py:249-267 | what expansion gives holds no include marker when no heading of the page is open at an include, and none of a block, as it is fitted, at an include or at its end |
| DocsLeftovers.ExpansionIsIdempotent | scripts/build_docs.py:249-267 | and then expanding twice is expanding once |
| DocsOpenHeadings.PagesAreSafeExactly | scripts/build_docs.py:249-267 | both hold of a page with all blocks that leave no heading open if and only if none of its own headings is open at an include |
| DocsOpenHeadings.BlocksAreSafeExactly | scripts/build_docs.py:249-267 | a block that does not include itself, however a marker fits it, leaves no marker behind when it is put before a closing line if and only if none of its headings is open at an include or at its end |
| DocsOpenHeadings.MarkerIsLeft | scripts/build_docs.py:53-59 | it happens: pages whose expansion is the marker of another block, and fails when expanded again |
| DocsByLine.ClosedTextIsReadByLine | scripts/build_docs.py:53-59 | where no line opens a heading that it does not close, reading the text is reading its lines one by one |
| DocsBuild.AdjustingKeepsMarkers | scripts/build_docs.py:260-264 | stripping, shifting and retitling a block with a one-line title keep its markers in order and open no heading |
| DocsOpenHeadings.TitleCarriesAMarker | scripts/build_docs.py:231-246 | over lines it is not so: a title that brings a marker into a block that had none |
| DocsBuild.PagesExpand | scripts/build_docs.py:249-267 | when no line of the page or of a block opens a heading that it does not close, expansion fails exactly on a chain of markers through the blocks as they stand, and otherwise leaves no marker and changes nothing the second time |
| DocsFitting.PlainFitting | scripts/build_docs.py:260-266 | a marker that asks for nothing puts the block in without the newlines at its ends |
| DocsFitting.LevelIsApplied | scripts/build_docs.py:261-262 | a marker's level is where the block's shallowest heading ends exactly when it is 1 to 6 |
| DocsFitting.TitleIsApplied | scripts/build_docs.py:263-264 | a marker's heading becomes the text of the block's first heading, which keeps its level and anchor, and all else is as without it |
| DocsBuild.RetitleFirstHeading | scripts/build_docs.py:231-246 | the loop retitles the first line that reads as a heading, keeping its level and anchor |
| DocsBuild.RetitlingMayHitFencedCode | scripts/build_docs.py:231-246 | retitling renames a line of fenced code if and only if one that looks like a heading comes before every heading there is |
| DocsBuild.CommentIsRetitled | scripts/build_docs.py:231-246 | it happens: a block whose first comment is renamed and whose title is kept |
| ShellHighlight.HighlightShell | scripts/build_docs.py:281-323 | the page shows the line exactly as it was; bare text holds no quote and no word-boundary hash, quoted spans end at their own quote, and the comment starts at the first word-boundary hash outside quotes |
| ShellHighlight.TintingIsUnique | scripts/build_docs.py:281-323 | these rules leave no choice: a line has one division into bare text, quoted spans and a comment |
| ShellHighlight.SiteIsUsable | scripts/build_docs.py:305-315 | the two spans the site uses are such tags |
| ShellHighlight.PageShowsItsText | scripts/build_docs.py:295-323 | escaping and spans are invisible to a reader of the page, for any characters |
| JsonKeys.RejectDuplicateObjectKeys | e2e/platform/envelope.go:52-61 | accepts if and only if the tokens are one document and no object at any depth repeats a name (section 4 of RFC 8259) |
| JsonKeys.Decoder.ScanJSONValue | e2e/platform/envelope.go:63-119 | reads exactly one value or refuses, agreeing with the recursive reader |
| JsonKeys.ValueIsScanned | e2e/platform/envelope.go:63-119 | a value's tokens are consumed exactly, whatever follows, if no name repeats in it, and refused otherwise |
| JsonKeys.OnlyValuesAreScanned | e2e/platform/envelope.go:63-119 | whatever is consumed is the tokens of one value without repeated names |
| JsonKeys.TokensTellTheValue | e2e/platform/envelope.go:63-119 | a token stream determines its document and where it ends |
| ShellQuote.QuotedIsOneWord | internal/cli/statussetup.go:86-104 | every string, quoted, is one literal shell word equal to the string (section 2.2 of the POSIX.1-2017 Shell Command Language) |
| ShellQuote.QuotedReads | internal/cli/statussetup.go:86-104 | that holds whatever text follows it |
| ShellQuote.QuotedArgumentsReadBack | internal/cli/statussetup.go:86-104 | a command line of quoted arguments reads back as exactly the arguments |
| ShellQuote.QuotingIsInjective | internal/cli/statussetup.go:86-104 | different strings never quote alike |

## Left out

- Processes, SSH, limactl, systemd, sockets and the file system itself: each command is one atomic step that works or fails.
- Git's content merge, SHA-256, decoding of JSON bytes and the MCP and OAuth SDKs: an uninterpreted conflict outcome, injective digests, and documents as records or tokens; only the registry is written out character by character.
- The form of a project's id, label and remote: one rule, because each is settled by its pattern; the secret scan and the control characters are modelled.
- `internal/config/registry_lock_other.go`, where the lock does nothing, and WriteRegistryForPaths, which writes without it: the linearizability claim does not hold for them.
- Trust checks of directories and files around the registry, and the retry of a config document's own schema.
- Random temporary names and lock tokens: taken to be distinct.
- Bootstrap and root-access checks before a Brain command: one step each that may fail.
- Status counts and notes, and the reading of a status while init runs: one step there, command by command in VaultStatus.InspectStatus.
- InitLock.AtMostOneHolder: holds while no lock directory reaches the stale age, because the age check and the move are separate commands; InitLock.TwoRecoveriesCanBothHold shows the run.
- listAllTools: the upstream's pages are one answer, since an upstream that never repeats a cursor never ends it.
- The broker's call timeout and what an upstream call returns.
- Broker identity and policy document checks of the installer: one condition and one answer.
- Parsing of systemctl and stat output in the installer: the answers are values, with one for output that is not understood.
- DocsOpenHeadings.BlocksAreSafeExactly: is about blocks that do not include themselves, because the page that shows an unsafe one gives every other block the closing line.
- BrainImport.Guest.Import: activating the skill is one command that works or fails; what it does to the skill's files, and when it can succeed, is BrainInit.Manager.InstallSkill.
- strip_anchor_syntax, expand_toc, render_markdown, slug and the site's pages.
- CLI commands, prompts, exit codes, hub screens, packaging and evaluation scripts: presentation and file handling.
