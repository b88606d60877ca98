# DotRelay: verified models

This project models the algorithms and protocols that DotRelay rests on, and proves what each of them is for.
Every module stands for one component and can be read alone.

| file | component |
|---|---|
| `workspace_cycles.dfy` | the dependency-cycle search over the workspace graph |
| `process_tree.dfy` | the search for descendants of a process, and the order in which they are killed |
| `wrapping_key.dfy` | the creation of the one wrapping key by any number of processes |
| `protected_files.dfy` | atomic file replacement under interleaving and crashes, and what each call does before it returns |
| `retained_copies.dfy` | the copy that a replacement can keep, alone and among overlapping writers |
| `credential_store.dfy` | sealed credential entries over those files, together with the key |
| `issue_scheduler.dfy` | the issue queue: backoff, selection, work bound, fairness |
| `device_login.dfy` | the polling loop of the device authorization grant (RFC 8628) |
| `github_identity.dfy` | the bounded GitHub lookups |
| `membership_provisioning.dfy` | the transaction that grants a member its project keys |
| `publish_service.dfy` | the in-memory publish service and its hash-linked history |
| `column_widths.dfy` | the column shrinking of CLI tables |
| `diagnostic_sink.dfy` | the bounded, expiring diagnostic buffer |
| `readiness.dfy` | the migration check behind the readiness probe |
| `arguments.dfy` | the CLI argument parser |
| `shell_quoting.dfy` | the shell command line built for terminal runs |
| `file_system.dfy` | the shared directory as names, inodes and contents |
| `sequences.dfy`, `numbers.dfy` | small functions and facts that several modules use |

`dafny verify dfyconfig.toml` checks everything.

## How the source is modelled

- Code that changes fields or collections in place is a class or a method with a loop. Each method is tied to a
  specification function or predicate, and the properties are proved of that.
- Concurrency is a state machine: a state, one step function for any process and any action (a crash and an I/O error
  included), an invariant that every step keeps, and theorems over all sequences of events. `Step` requires the
  invariant `Safe` only so that its file accesses are defined; every run from an initial state satisfies it.
- The network, clocks, randomness and external commands are parameters: an arbitrary answer, or a sequence or
  function of answers, over which the theorems quantify.
- Times are integers in milliseconds. Sleeps are exact and a fetch is cut off at its deadline.
- Numbers are unbounded. The places where JavaScript's own limits matter (`Number.isSafeInteger` on epochs, the twentieth
  doubling in the backoff) are written out.

Assumptions that carry weight: candidate and temporary file names (random UUIDs) never repeat and differ from the
names callers use; `link`, `rename`, `unlink`, exclusive creation and each single write are atomic; the provisioning
transaction is one step; the digest and the cipher are ideal functions (`CredentialStore.IdealExists` shows that these
requirements can be met).

## What the models show that the source does not say

- `PublishService.OverlappingFork`: a finalize waits for digests between its check of the head and its append, so two
  overlapping finalizes that name one head both commit and the history forks. `AppendKeepsChain` gives the exact condition.
- `WorkspaceCycles.BarHidesCycle`: if a package `a|b` depends on itself and `a` and `b` on each other, both cycles have
  one key and one of them goes unreported. The cycles of the back edges that the search meets are a function of the graph
  (`BackCycles`), and what is reported meets every closed walk exactly if no two different ones of them share a key
  (`CycleDescriptions`), as is sure when the keys of the graph's simple cycles tell them apart, and so without `|` in names.
  Any two disjoint sets of names with one key allow a graph that loses a cycle (`CollisionHidesCycle`), yet a collision
  does not hide something on every graph (`CollisionMayBeHarmless`). The list is empty exactly for acyclic graphs in any case.
- `RetainedCopies.OverlappingWriters`: of two overlapping `retainPrevious` writers of one path, the second leaves a copy that
  is older than what it replaced. `RenameKeepsCopy` gives the exact condition at its rename, `ReplacedIsKept` one that
  a caller can keep.
- `ProtectedFiles.FailedButDone`: a write that reports failure has taken effect if its last mode change failed.
- `CredentialStore.ServicesCollide`: services that hold a NUL can share files and associated data, exactly if one followed by
  NUL begins with the other followed by NUL.
- `Arguments.IgnoredExactly`: a comment at `apps/cli/src/args.ts:236-238` promises that no flag is silently ignored. The
  exceptions are `--help` and `--version` with a value, which the scan skips although `apps/cli/src/index.ts:2148-2159`
  answers only the bare flags, and `--classify __proto__=shared`, which assigns to the prototype of a plain object.
- `Arguments.SwitchIgnoresValue`: `--json=false` turns JSON output on.
- `Arguments.EmptySubcommandReplaced`: an empty word where any subcommand belongs is dropped by the next word.
- `Readiness.RepetitionFools`: a repeated expected migration would let a foreign one pass. Directory names rule this out.
- `ProcessTree.ListedTwice`: if a listing names one process under two parents, the second parent can be killed before it.
- `GitHubIdentity.ResolveBoundTight`: pauses after an outage are not cut at the deadline, so the head of the last answer can
  come a full second later than the budget of 30 seconds, and never later.
- `GitHubIdentity.BodyUnbounded`: the body of a success is read with no deadline at all, so such a lookup has no bound.
- `IssueScheduler.LostLaunches`: launches that end by an error thrown count against no limit over restarts.
- `MembershipProvisioning.CompleteDraft`: the grant count taken before the activation can never fall short there.

## Model

| member | source | states |
|---|---|---|
| WorkspaceCycles.CycleDescriptions | scripts/verify-boundaries.ts:161-188 | For every finite graph: the list is empty exactly when no closed walk exists; every message describes a simple closed walk along edges, and different messages have different keys; the cycles of the back edges that the search meets are a function of the graph, simple, and the first with each key is reported; every closed walk runs along the closing edge of one of them, and along that of a reported one if and only if no two different ones share a key, so always when the keys of the graph's simple cycles tell them apart; each node is expanded exactly once |
| WorkspaceCycles.CycleFinder.Visit | scripts/verify-boundaries.ts:167-184 | The stack is the visiting set in order, each node expanded from the one before it along an edge, and stays so; what is visited, met or reported is what the recursive function of the graph says; afterwards the node is finished or the edge to it closes a cycle that was met |
| WorkspaceCycles.CycleFinder.VisitAll | scripts/verify-boundaries.ts:186 | The loop over the nodes ends where the recursive function does |
| WorkspaceCycles.CycleFinder.Report | scripts/verify-boundaries.ts:168-176 | A back edge into the stack is met as the closing edge of a cycle, which is reported exactly if no reported one has its key |
| WorkspaceCycles.CycleFinder.AddReport | scripts/verify-boundaries.ts:172-175 | A cycle with a new key is met and joins the reports as the last one, with its message |
| WorkspaceCycles.CycleFinder.Begin | scripts/verify-boundaries.ts:179-180 | A node joins the stack only once in the whole search, and the search state stays valid |
| WorkspaceCycles.CycleFinder.Finish | scripts/verify-boundaries.ts:182-183 | A node whose edges are all settled leaves the stack as finished, and every earlier edge stays settled |
| WorkspaceCycles.CycleFinder.constructor | scripts/verify-boundaries.ts:161-165 | The search starts with nothing visited or reported |
| WorkspaceCycles.BackEdgeCloses | scripts/verify-boundaries.ts:169-170 | The stack from the node on, closed by the back edge, is a simple cycle |
| WorkspaceCycles.ClosedWalkTurnsBack | scripts/verify-boundaries.ts:178-184 | No closed walk can follow only edges to earlier finished nodes |
| WorkspaceCycles.SilentMeansAcyclic | scripts/verify-boundaries.ts:186-187 | A finished search has reported nothing if and only if the graph has no closed walk |
| WorkspaceCycles.WalksAreFound | scripts/verify-boundaries.ts:167-184 | Every closed walk of the graph runs along the closing edge of a cycle that the search met, reported or not |
| WorkspaceCycles.TouchedUnlessSuppressed | scripts/verify-boundaries.ts:168-176 | The closing edges of the reported cycles meet every closed walk if and only if no cycle that was met went unreported |
| WorkspaceCycles.OwnKeysMeansAll | scripts/verify-boundaries.ts:171-175 | Nothing that was met goes unreported if and only if no two different cycles that were met share a key |
| WorkspaceCycles.FirstGrows | scripts/verify-boundaries.ts:167-184 | While the search goes on the reports stay the first of the met cycles with each key, and finished nodes stay finished |
| WorkspaceCycles.SuppressedIsUntouched | scripts/verify-boundaries.ts:172-176 | A cycle that went unreported runs along no closing edge of a reported one |
| WorkspaceCycles.SameEdgeSameCycle | scripts/verify-boundaries.ts:167-170 | No two cycles that the search meets end along one edge |
| WorkspaceCycles.ChainBySet | scripts/verify-boundaries.ts:179-183 | The stack orders a set of nodes in only one way, because each node joins it once |
| WorkspaceCycles.ApartMeansAll | scripts/verify-boundaries.ts:171-175 | When no two simple cycles of the graph with different node sets share a key, nothing that was met goes unreported |
| WorkspaceCycles.BarFreeKeysTellApart | scripts/verify-boundaries.ts:171 | Names without a bar keep the keys of all simple cycles apart |
| WorkspaceCycles.SortedSetCorrect | scripts/verify-boundaries.ts:171 | The sorted set of a list is strictly ascending and has the same elements |
| WorkspaceCycles.SameNodesSameKey | scripts/verify-boundaries.ts:171 | The key depends on the node set alone, not on where the cycle was entered |
| WorkspaceCycles.SameKeySameNodes | scripts/verify-boundaries.ts:171-173 | With no bar in names the key determines the node set |
| WorkspaceCycles.KeyCollision | scripts/verify-boundaries.ts:171 | With a bar in a name two different node sets can have one key |
| WorkspaceCycles.CollisionHidesCycle | scripts/verify-boundaries.ts:161-188 | For any two disjoint sets of names with one key there is a graph on them for which every possible result leaves some closed walk without a reported closing edge |
| WorkspaceCycles.BarHidesCycle | scripts/verify-boundaries.ts:161-188 | On the graph of a self-dependent package a bar b and the mutually dependent packages a and b, every possible result leaves some closed walk without a reported closing edge |
| WorkspaceCycles.CollisionMayBeHarmless | scripts/verify-boundaries.ts:161-188 | A graph with two simple cycles of one key on disjoint sets of nodes, for which the search reports exactly the two cycles it meets and these meet every closed walk |
| WorkspaceCycles.DifferentNodeSets | scripts/verify-boundaries.ts:172-175 | Reported cycles have pairwise different node sets |
| WorkspaceCycles.MessageNames | scripts/verify-boundaries.ts:170-174 | A message names the nodes of its cycle one after the other with arrows between them, and nothing else |
| ProcessTree.FindDescendants | scripts/run-issues-process.ts:49-77 | The loop ends with exactly the least set that holds the child and is closed under the usable rows, in the order in which passes over the listing add to it |
| ProcessTree.Pass | scripts/run-issues-process.ts:65-76 | One pass adds, row by row, each process whose parent is there by then, and reports a change exactly when it added one |
| ProcessTree.SearchFinds | scripts/run-issues-process.ts:63-77 | What the passes end with is the least closed set with the child, each process after some parent |
| ProcessTree.GrownIsLeast | scripts/run-issues-process.ts:66-75 | Every set closed under the rows that holds the child holds all that the passes add |
| ProcessTree.Stop | scripts/run-issues-process.ts:45-96 | All descendants and only they are signalled, each process right after its group; with unique ids every signal to a process other than the child comes before every direct one to its parent |
| ProcessTree.Send | scripts/run-issues-process.ts:78-94 | The loop sends the two signals of each process in reverse order of discovery, and the child's group again at the end |
| ProcessTree.SignalsKill | scripts/run-issues-process.ts:78-94 | The signals kill each found process once its group has been signalled, and no other |
| ProcessTree.LaterIsFirst | scripts/run-issues-process.ts:78-89 | Whoever was found later is signalled, group and process, before any direct signal to one found earlier |
| ProcessTree.ParentComesFirst | scripts/run-issues-process.ts:66-75 | With unique ids the order of insertion puts a process after its parent |
| ProcessTree.KilledBeforeParent | scripts/run-issues-process.ts:78-89 | With unique ids every signal to a found process comes before every direct one to its parent |
| ProcessTree.ListedTwice | scripts/run-issues-process.ts:59-89 | On a listing that names one process under two parents, the loop's own order makes the signals kill the second parent before it |
| WrappingKey.OneKey | apps/cli/src/credentials.ts:109-151 | Any two keys that calls return, in any interleaving of any processes, are equal |
| WrappingKey.CallEndsRightly | apps/cli/src/credentials.ts:108-151 | In any interleaving a call ends with one result: the key whose text the file shows, if none of its operations failed, the text is in order, and there was a key at its first open or it is a call that makes one; nothing only if a mere read found none; and otherwise the error that belongs to the failure or to the damaged text |
| WrappingKey.CallCanEnd | apps/cli/src/credentials.ts:108-151 | No call is ever stuck: from any state of any run its process alone can bring it to its end without a failure |
| WrappingKey.KeyStep | apps/cli/src/credentials.ts:130-142 | One step binds the key name at most once, only to the complete text of a drawn key, and never changes what it shows |
| WrappingKey.KeyNeverChanges | apps/cli/src/credentials.ts:128-141 | Once bound, the key file shows the same text after any further events |
| WrappingKey.KeyIsComplete | apps/cli/src/credentials.ts:128-141 | The key file holds what it held at first or the complete text of a drawn key, never a part of one |
| WrappingKey.ReturnedKeyWasDrawn | apps/cli/src/credentials.ts:124-151 | In a directory without a key every returned key is the material some call drew, all of it |
| WrappingKey.WinnerIsFound | apps/cli/src/credentials.ts:137-144 | In a directory that had no key a process finds a readable winner after its link, so the branch for a missing winner is never taken |
| WrappingKey.StepSafe | apps/cli/src/credentials.ts:109-151 | Every step of every process keeps the invariant: candidates are private until linked, what a reader has is a prefix of the key file, every returned key is the key |
| WrappingKey.StepOfOne | apps/cli/src/credentials.ts:124-151 | A step that leaves the files of the other processes alone is safe if it is safe for the one that takes it |
| WrappingKey.DecodeText | apps/cli/src/credentials.ts:119-133 | Reading the text written for a key, trimmed and checked against the pattern, gives back the key |
| ProtectedFiles.Linearizable | apps/cli/src/output.ts:32-54 | In every interleaving with crashes each path behaves as one atomic register: the logged effects explain the contents of every path, each read saw what the effects before it left, and every read, write or delete that returned success is among the effects |
| ProtectedFiles.NeverTorn | apps/cli/src/output.ts:32-54 | At every moment a path shows its first contents, nothing, or the complete contents of one requested or retained write |
| ProtectedFiles.CallTakesEffect | apps/cli/src/output.ts:32-95 | Between its call and its return a read, write or delete does the effects of its plan in order and each at most once, all of them before it returns success; so a write or delete that succeeds took effect within its call, and one that fails wrote the new contents at most once |
| ProtectedFiles.CallEndsRightly | apps/cli/src/output.ts:32-54 | In any interleaving a read, write or delete ends with one result: an error exactly if one of its own operations failed, and otherwise success with the last effect of its plan, all of which is done |
| ProtectedFiles.CallCanEnd | apps/cli/src/output.ts:32-54 | No call is ever stuck: from any state of any run its process alone can bring it to its end without a further failure |
| ProtectedFiles.FailedButDone | apps/cli/src/output.ts:43-53 | A call that fails took full effect all the same if and only if the last mode change failed after the rename, or a read failed after its file was open |
| ProtectedFiles.ReadSeesCompleted | apps/cli/src/output.ts:32-54 | A read called after a write or delete of its path returned success answers the latest change of the path before the read itself; that is the latest one at its call or a later one, and the completed one is not after that |
| ProtectedFiles.OwnStep | apps/cli/src/output.ts:32-95 | Each step of a process takes its call one step along its plan |
| ProtectedFiles.StepEffect | apps/cli/src/output.ts:32-54 | A step changes what readers of a path would get by exactly the one effect it logs, or not at all |
| ProtectedFiles.ExplainedStep | apps/cli/src/output.ts:32-54 | A step keeps the contents of all paths equal to the replay of the logged effects |
| ProtectedFiles.StepSafe | apps/cli/src/output.ts:32-95 | Every step keeps the invariant: a temporary file is private to its writer, holds a prefix of the contents, and is renamed only when complete; a file open for reading no longer changes |
| RetainedCopies.RetainedCopy | apps/cli/src/output.ts:56-95 | When no other process changes the path or its copy: at every moment, crashes included, the path shows its old contents or the new ones, the new ones only beside a complete copy of the old, and the latter once the call has succeeded |
| RetainedCopies.RenameKeepsCopy | apps/cli/src/output.ts:43-65 | The rename of the new contents leaves in the copy what it replaces if and only if the last change of the copy left those contents there |
| RetainedCopies.ReplacedIsKept | apps/cli/src/output.ts:56-95 | Amid any other writers, a retaining write that found a file leaves a copy of what it replaces if nothing else wrote to the path between its read and its rename, nor to the copy between its own copy and its rename |
| RetainedCopies.OverlappingWriters | apps/cli/src/output.ts:56-95 | A run of two retaining writers that both succeed, after which the copy is not what the second one replaced |
| RetainedCopies.RetainingPlan | apps/cli/src/output.ts:56-95 | What each part of a retaining write's effects leaves on the path and on the copy |
| CredentialStore.GetReturnsLatestSet | apps/cli/src/credentials.ts:153-231 | Under any interleaving of key calls, sets, gets and deletes, whichever returned keys the sets sealed under and the get holds, a get answers the secret of the latest set of its scope before the moment of its read, nothing after a delete, and what the file held at first if neither happened |
| CredentialStore.GetSeesCompletedSet | apps/cli/src/credentials.ts:153-231 | A get called after a set or delete of its scope has returned success answers what the latest change of that scope before its read left: the latest one at its call or a later one, so never anything older than the completed one, and nothing that other scopes undergo matters |
| CredentialStore.NoKeyNoSet | apps/cli/src/credentials.ts:155-157 | While the key is missing no set has begun, so a get that answers nothing for want of a key hides no secret set so far |
| CredentialStore.SetLeavesKey | apps/cli/src/credentials.ts:190-222 | Once a set has returned success every get finds a key |
| CredentialStore.OneKeySeals | apps/cli/src/credentials.ts:190-206 | All sets by all processes were sealed under the one key that any call returns |
| CredentialStore.FilesRun | apps/cli/src/credentials.ts:153-231 | A run of the whole store is, on its files, a run of the file protocol |
| CredentialStore.UnsealExact | apps/cli/src/credentials.ts:169-188 | Reading an entry under a key and a scope gives a secret if and only if the entry was sealed from it under both |
| CredentialStore.AnsweredExactly | apps/cli/src/credentials.ts:155-194 | A get says that there is nothing if and only if there is no key or no entry, and gives a secret if and only if the entry was sealed from it under the key and the scope |
| CredentialStore.MovedEntryRejected | apps/cli/src/credentials.ts:172-188 | An entry copied to the file of another scope, or read under another key, is rejected |
| CredentialStore.SealedForEveryProcess | apps/cli/src/credentials.ts:155-213 | What one process seals under the key it was given, every process opens under the key it was given |
| CredentialStore.ScopeInjective | apps/cli/src/credentials.ts:72-93 | Services free of NUL keep scopes apart in file names and in associated data |
| CredentialStore.ServicesCollide | apps/cli/src/credentials.ts:72-93 | Two different services can share a scope for some accounts if and only if one followed by NUL begins with the other followed by NUL |
| CredentialStore.NulCollision | apps/cli/src/credentials.ts:72-93 | Two different scopes with the same bytes when a service holds a NUL |
| CredentialStore.FramingSplits | apps/cli/src/credentials.ts:169-213 | The slices that a get takes are the nonce and the ciphertext that a set joined |
| CredentialStore.AssociatedData | apps/cli/src/credentials.ts:72-78 | The buffer filled in two steps holds the store label followed by the scope, with nothing left unset |
| CredentialStore.Frame | apps/cli/src/credentials.ts:210-213 | The buffer filled in place holds the version, the nonce and the ciphertext and nothing else |
| CredentialStore.IdealExists | apps/cli/src/credentials.ts:80-107 | The assumptions on digest and cipher are consistent |
| IssueScheduler.BackoffLaws | scripts/run-issues-controller.ts:37-38 | Delays are positive, never above the cap, never shrink, and double until the cap or the twentieth doubling |
| IssueScheduler.Pick | scripts/run-issues-controller.ts:468-471 | The pick is ready, no ready job is due earlier, and among equals it comes first; there is none only if no job is ready |
| IssueScheduler.BypassedOnce | scripts/run-issues-controller.ts:468-503 | With a clock that never goes back, no job is picked twice while another job that was ready at its first pick still waits |
| IssueScheduler.PickedSoon | scripts/run-issues-controller.ts:468-503 | A job ready at some pick is picked itself before as many picks have passed as there are jobs |
| IssueScheduler.RunFair | scripts/run-issues-controller.ts:468-503 | In every run a waiting job stays ready until picked and is then due before every job that was picked ahead of it |
| IssueScheduler.VisitedIsLater | scripts/run-issues-controller.ts:40-61 | A job still pending after its visit is due strictly later than every job that was due |
| IssueScheduler.LaunchBound | scripts/run-issues-controller.ts:468-668 | In every run a worker is launched for an issue at most as often as it has attempts left plus the outages recorded for it |
| IssueScheduler.LaunchBoundOverRuns | scripts/run-issues-controller.ts:331-668 | Over any number of restarts between two manual retries, at most as often as it had attempts left plus the outages recorded for it plus its own launches that ended by an error thrown |
| IssueScheduler.CountSnoc | scripts/run-issues-controller.ts:601-655 | What the bounds count: a launch is a worker that ran to its end or until it was interrupted, it is lost if it ended by an unconfirmed cleanup or an interruption, and outages are those of lookups, preparations and workers and issues that are open but not listed |
| IssueScheduler.LostLaunches | scripts/run-issues-controller.ts:331-668 | For every number n a chain of runs that launches n times for one issue, all lost to errors thrown, with no failure or outage recorded |
| IssueScheduler.OutagesAreFree | scripts/run-issues-controller.ts:51-60 | In every run outages spend nothing of a job's failure budget |
| IssueScheduler.RunKept | scripts/run-issues-controller.ts:355-668 | Every run keeps issue numbers unique, never removes or reorders a job, and leaves every job that is not blocked with attempts left |
| IssueScheduler.JobsByRecords | scripts/run-issues-controller.ts:468-668 | Over any number of runs without a manual retry: a job is done if and only if it was or a visit found it closed or its worker exited 0, blocked if and only if it was or a visit found it ineligible or its worker exited 78 or its failures reached the limit; failures, outages in a row and the due time are those that its visits add up to |
| IssueScheduler.VisitCounts | scripts/run-issues-controller.ts:501-655 | What one visit makes of a job, seen from the fields of the job |
| IssueScheduler.TurnVisitsDue | scripts/run-issues-controller.ts:468-500 | A turn visits the job that is due first and leaves the others alone; with none due it only adds what was discovered, and ends the run if nothing is pending, with 2 if something is blocked and 0 if not |
| IssueScheduler.ThrownExactly | scripts/run-issues-controller.ts:448-450 | A run ends by an error thrown if and only if a visit met an unconfirmed cleanup or an interruption, or discovery failed other than by an outage |
| IssueScheduler.ExitCode | scripts/run-issues-controller.ts:472-487 | The loop returns 0 exactly when all jobs are done and 2 exactly when some are blocked, and in both cases none is pending |
| IssueScheduler.AddAllAppends | scripts/run-issues-controller.ts:355-365 | Discovery appends one fresh pending job for each new issue and changes no other |
| IssueScheduler.RetrySound | scripts/run-issues-controller.ts:331-341 | A retry restores the whole budget of the one named unfinished job and changes no other; it is refused exactly for done and unknown issues |
| IssueScheduler.Controller.RecordFailure | scripts/run-issues-controller.ts:40-61 | Only the one job changes, as an outage or a failure demands |
| IssueScheduler.Controller.AddFound | scripts/run-issues-controller.ts:355-365 | The loop over discovered issues adds each unknown one, once |
| IssueScheduler.Controller.VisitJob | scripts/run-issues-controller.ts:505-668 | The picked job alone changes, as the visit demands (`VisitCounts`), and the run is thrown exactly by an unconfirmed cleanup or an interruption |
| IssueScheduler.Controller.TakeTurn | scripts/run-issues-controller.ts:367-668 | One pass of the loop is one turn of the specification |
| IssueScheduler.Controller.Drain | scripts/run-issues-controller.ts:367-668 | The loop is the run of the specification over any answers of the world |
| DeviceLogin.Login | apps/cli/src/auth.ts:311-465 | For all answers: the number of requests, their spacing and the end are bounded; the outcome is logged in if and only if the last answer grants a non-empty token, which alone is saved, expired, denied or failed if and only if it says so, and timed out if and only if there is none or it only puts off; a time-out with the default limit comes no earlier than the expiry |
| DeviceLogin.PollUntilDecided | apps/cli/src/auth.ts:331-465 | The loop meets the same contract as the login for any limit of polls |
| DeviceLogin.IntervalGrows | apps/cli/src/auth.ts:433-440 | The interval before a request is the original one plus five seconds for each slow_down before it (section 3.5 of RFC 8628) |
| DeviceLogin.WaitsAsTold | apps/cli/src/auth.ts:329-445 | Between two requests the server's own time passes if it gave one, five seconds more than the interval after a rate limit, a growing pause after an outage, and always the interval; only an answer that puts off is followed by a request |
| DeviceLogin.OutagePause | apps/cli/src/network.ts:118-125 | The pause after an outage doubles with each poll up to its limit |
| DeviceLogin.RequestsApart | apps/cli/src/auth.ts:334-385 | Any two requests are at least as many original intervals apart as there are requests between them |
| DeviceLogin.EnoughPolls | apps/cli/src/auth.ts:315-320 | The default number of polls, sleeping one interval each, outlasts the code |
| DeviceLogin.FewestPolls | apps/cli/src/auth.ts:315-320 | No fewer polls than the default would outlast the code, except that one is always made |
| DeviceLogin.Poll | apps/cli/src/auth.ts:334-413 | One turn asks only before expiry, and rests exactly as long as the server's guidance or the fallback says unless the code expires first |
| DeviceLogin.Fetch | apps/cli/src/network.ts:174-215 | An answer counts only if it is there by the deadline, and the caller never waits longer |
| DeviceLogin.PollGoesOn | apps/cli/src/auth.ts:367-440 | A poll that is told to go on leaves the loop with the interval and the pause that the answer calls for |
| GitHubIdentity.ResolveBounded | apps/api/src/github-repository.ts:206-279 | Whatever is answered, at most three requests are made and the head of the last answer is in within 31,000 ms of the start; the lookup returns by then unless reading the body of a success takes up the excess |
| GitHubIdentity.BodyUnbounded | apps/api/src/github-repository.ts:174-239 | For any time, an answer that comes at once and whose lookup takes longer |
| GitHubIdentity.ResolveBoundTight | apps/api/src/github-repository.ts:215-226 | Answers for which the lookup fails after exactly 31,000 ms |
| GitHubIdentity.Resolve | apps/api/src/github-user.ts:146-225 | The outcome is told by the last answer: resolved if and only if it is a usable success, denied, not found and rate limited if and only if its status and signals say so for this lookup, with the window they give; every attempt followed the pause after the one before it, no further attempt was due, and the lookup returns once the body of a success is read |
| GitHubIdentity.HeardInTime | apps/api/src/github-repository.ts:161-183 | An answer counts if and only if it is there within what is left of the thirty seconds |
| GitHubIdentity.PauseBounded | apps/api/src/github-repository.ts:218-226 | A pause before the deadline ends less than its own backoff after it |
| GitHubIdentity.NotAnOracle | apps/api/src/github-user.ts:177-198 | Whether absence is told by a 403 or a 404 changes neither the outcome of a lookup nor the number and the times of its requests |
| GitHubIdentity.GivesUpOnlyWhenSpent | apps/api/src/github-repository.ts:208-278 | A lookup goes on after every failure that may pass while attempts and time are left, and after nothing else; a rate limit or an outage is reported only when three requests were made or the time was used up, or when the answer cannot pass |
| GitHubIdentity.PausedAsTold | apps/api/src/github-repository.ts:249-262 | Between two requests the server's own retry time passes exactly, or half a second and then a whole one, cut at the end of the budget after an answer but not after none |
| GitHubIdentity.RetryWindow | apps/api/src/github-repository.ts:263-274 | Any reported retry window lies between zero and an hour |
| GitHubIdentity.RetryAfterSeconds | apps/api/src/github-repository.ts:109-111 | A promised number of seconds is rounded up by less than one |
| GitHubIdentity.RetryAfterDate | apps/api/src/github-repository.ts:112-117 | A promised date is reached, and passed by less than a second |
| GitHubIdentity.ParseRateReset | apps/api/src/github-repository.ts:123-134 | A rate reset, past or future, becomes a window between zero and an hour |
| MembershipProvisioning.ProvisionedExactly | apps/api/src/membership-provisioning-routes.ts:254-406 | A committed run adds exactly one grant for each pair of an initialised active project and an active device of the member, at the project's current epoch and bound to the device's key, none besides and at most 128; it makes that member active and no other; the operation is committed and no other changes |
| MembershipProvisioning.PlanExactly | apps/api/src/membership-provisioning-routes.ts:62-129 | A plan exists if and only if the actor is an active owner of the active team, or an active admin and the target a plain member, the target is pending or active and has an active device, and there are at most 128 grants and no epoch beyond the safe integers |
| MembershipProvisioning.DecidedExactly | apps/api/src/membership-provisioning-routes.ts:183-396 | A request is provisioned if and only if it is coherent and signed by an active device of the actor, its operation is new or still staged by the same command, the actor may provision the target, each grant wraps the current key of its project for its device and is referred to, and the store takes every object under a new id; it is answered as done if and only if that command has been committed |
| MembershipProvisioning.ReplayedAfterwards | packages/database/src/persistence/objects.ts:259-310 | Sending a committed request again is answered as done |
| MembershipProvisioning.ProvisioningService.Post | apps/api/src/membership-provisioning-routes.ts:254-406 | The database changes only for a committed run, and only one whose actor may provision the target; the outcome is the one `DecidedExactly` characterises |
| MembershipProvisioning.ProvisioningService.Provision | apps/api/src/membership-provisioning-routes.ts:276-403 | The run commits if and only if the activation, every grant in plan order and the references are as the plan demands |
| MembershipProvisioning.ProvisioningService.DraftGrants | apps/api/src/membership-provisioning-routes.ts:294-387 | The nested loops with a running index meet the projects × devices in order, and fail exactly when some grant is not acceptable for its pair |
| MembershipProvisioning.ProvisioningService.DraftOne | apps/api/src/membership-provisioning-routes.ts:329-385 | One grant passes exactly when it is acceptable for its pair, and then the draft holds one row more |
| MembershipProvisioning.PairAt | apps/api/src/membership-provisioning-routes.ts:327-329 | The index that the loops have reached names the pair of the current project and device |
| MembershipProvisioning.PairsComplete | apps/api/src/membership-provisioning-routes.ts:327-328 | The flat list holds every pair and nothing else |
| MembershipProvisioning.RowsDiffer | apps/api/src/membership-provisioning-routes.ts:360-377 | No two new grants are for the same project and device |
| MembershipProvisioning.ProjectsExact | apps/api/src/membership-provisioning-routes.ts:93-126 | The plan holds exactly the active projects of the team with an active environment that has a head, at their current epoch |
| MembershipProvisioning.DevicesExact | apps/api/src/membership-provisioning-routes.ts:85-130 | The plan holds exactly the active devices of the member's user |
| MembershipProvisioning.CompleteDraft | packages/database/src/persistence/membership.ts:58-67 | When all grants have passed, the count of grant objects before the activation equals the required number, so that check never fails here |
| MembershipProvisioning.ObjectsKept | apps/api/src/membership-provisioning-routes.ts:360-402 | After a committed run every grant still refers to a stored object and ids are still unique |
| PublishService.HistoryGrows | scripts/test-cli-live.ts:390-427 | In any interleaving the history only grows, and its first revision is its only genesis |
| PublishService.AppendKeepsChain | scripts/test-cli-live.ts:411-426 | An append keeps every parent id and hash those of the revision before, if and only if nothing was appended since its check or it is refused |
| PublishService.OverlappingFork | scripts/test-cli-live.ts:411-426 | Two finalizes that pass the check on one head before either appends both commit, and the history forks |
| PublishService.RefusedChangesNothing | scripts/test-cli-live.ts:412-423 | A refused finalize changes neither history nor staging |
| PublishService.FinalizedExactly | scripts/test-cli-live.ts:404-427 | Served alone, a finalize commits if and only if it is admitted, names the head, and names a staged, well-formed object that is a genesis exactly at first; the new revision is made of that object and of all that is staged, each with the digest of its bytes, on top of the head, and nothing stays staged |
| PublishService.PutExactly | scripts/test-cli-live.ts:392-398 | A staged object takes the place of the one under its id or comes last, and no other changes |
| PublishService.ServedOrderly | scripts/test-cli-live.ts:390-427 | Served one at a time the history is a hash-linked chain with one genesis, and each commit named the head it replaced |
| PublishService.OneCommitPerHead | scripts/test-cli-live.ts:411-424 | Served one at a time, with distinct revision ids, at most one finalize naming a given head commits |
| PublishService.Service.Finalize | scripts/test-cli-live.ts:407-427 | An uninterrupted finalize is one step of the specification, and reports success exactly when the history grew |
| PublishService.Service.Append | scripts/test-cli-live.ts:419-426 | The second half of a finalize refuses only a misplaced genesis, whatever the history has become |
| PublishService.Service.Check | scripts/test-cli-live.ts:408-418 | The first half yields a revision exactly for an admitted request that names the current head |
| PublishService.Service.StageObject | scripts/test-cli-live.ts:392-398 | Staging touches nothing but the staged objects, where an object staged again keeps its place |
| PublishService.Service.CancelOperation | scripts/test-cli-live.ts:400-403 | Cancelling leaves nothing staged and the history as it was |
| ColumnWidths.Fit | apps/cli/src/components.ts:98-107 | The loop ends with the columns cut off at one level of at least four; untouched if they fit; otherwise filling the cap exactly, or all at most four |
| ColumnWidths.FittedColumns | apps/cli/src/components.ts:99-107 | No column grows, columns of at most four stay, every shrunk one ends within one of the widest |
| ColumnWidths.FittedOptimal | apps/cli/src/components.ts:99-107 | No other narrowing that is as wide in total has a smaller maximum |
| ColumnWidths.FittedUnique | apps/cli/src/components.ts:98-107 | The wanted widths and the cap leave only one result that meets the specification |
| ColumnWidths.FillingStep | apps/cli/src/components.ts:102-106 | Taking one off the first widest column of a filling gives a filling again |
| ColumnWidths.Widest | apps/cli/src/components.ts:102-104 | The scan finds the first of the widest columns |
| ColumnWidths.RowLength | apps/cli/src/components.ts:100 | The total that is fitted is the length of a row of cells that wide with two spaces between any two |
| DiagnosticSink.Sink.Emit | apps/api/src/observability.ts:190-206 | An accepted event comes last after exactly the expired ones have left, and the oldest too if the buffer is full; a refused one changes nothing; the buffer stays a suffix of what was accepted, at most 10,000 long, with one armed timer for each entry |
| DiagnosticSink.Sink.Purge | apps/api/src/observability.ts:179-188 | Exactly the expired entries leave, from the front, with their timers |
| DiagnosticSink.Sink.Fire | apps/api/src/observability.ts:198-202 | A timer that fires removes its own entry, and nothing that has not expired |
| DiagnosticSink.Sink.Records | apps/api/src/observability.ts:207-210 | The events reported are those that have not expired, oldest first |
| DiagnosticSink.Expired | apps/api/src/observability.ts:180-185 | Filtering by expiry keeps exactly a suffix |
| DiagnosticSink.SuffixDrop | apps/api/src/observability.ts:179-197 | What has left the buffer had expired at a purge or had 10,000 successors |
| DiagnosticSink.LinkedDrop | apps/api/src/observability.ts:181-184 | Clearing the timers of the dropped entries leaves one armed timer for each kept one |
| Readiness.ReadyIsPermutation | apps/api/src/readiness.ts:34-46 | With distinct expected migrations the verdict is true if and only if the rows not rolled back are a permutation of them, with their checksums and finished |
| Readiness.TrustedExactlyWhenDistinct | apps/api/src/readiness.ts:34-46 | The verdict means this for all rows if and only if no migration is expected twice |
| Readiness.RepetitionFools | apps/api/src/readiness.ts:37-45 | Rows that satisfy the verdict with a foreign migration, for any list with a repetition |
| Readiness.AppliedExactly | apps/api/src/readiness.ts:34 | Of the rows exactly those that are not rolled back are compared, each as often as it is listed |
| Readiness.Pigeonhole | apps/api/src/readiness.ts:37-45 | Equal lengths and a match for each of a list without repetition force a permutation |
| Arguments.ScanTokens | apps/cli/src/args.ts:584-654 | The loop over an index, filling the record in place, computes the recursive scan, refusals included |
| Arguments.ScanIsMeaning | apps/cli/src/args.ts:597-654 | On every list of tokens: it is refused exactly when some option cannot be read or the words are refused, and otherwise the words read alone and the options read alone determine the record, however they are mixed |
| Arguments.LineIsPrinted | apps/cli/src/args.ts:597-654 | Every list of tokens that can be read is made of well-formed pieces that print as it was, skipped flags and switches with values included |
| Arguments.LineReads | apps/cli/src/args.ts:597-654 | Every list of well-formed pieces is read back from its tokens |
| Arguments.SpellingsAgree | apps/cli/src/args.ts:604-625 | For every flag that takes a value and every text, usable or refused, the joined spelling and the separate one do the same |
| Arguments.OptionsMayMove | apps/cli/src/args.ts:597-654 | Any two lists of tokens whose words are the same in order and whose options have the same last values, references and switches are scanned alike |
| Arguments.WordsExactly | apps/cli/src/args.ts:640-654 | The first word is the command; after a grouped one the first non-empty word is its subcommand and empty ones before it are dropped; all the rest are positionals |
| Arguments.VariableNames | apps/cli/src/args.ts:136 | A variable name is made of ASCII letters, digits and underscores and does not begin with a digit |
| Arguments.OptionsAre | apps/cli/src/args.ts:116-151 | The last value of a setting wins, references add up in order, switches stay on |
| Arguments.SwitchIgnoresValue | apps/cli/src/args.ts:626-632 | A switch with any value is on |
| Arguments.DashesOptional | apps/cli/src/args.ts:600-603 | A bare `--` at the end changes nothing |
| Arguments.ScanWellFormed | apps/cli/src/args.ts:597-654 | Whatever is accepted has a command, a subcommand only where one is taken, and only usable values |
| Arguments.RenderReadsBack | apps/cli/src/args.ts:580-654 | Scanning the canonical rendering of a record gives back the record |
| Arguments.ParseInvertsPrinter | apps/cli/src/args.ts:407-667 | Rendering any accepted arguments and parsing them again is accepted with the same result |
| Arguments.ParsedExactly | apps/cli/src/args.ts:407-667 | A scanned line is accepted if and only if its command and subcommand exist, each option given is one that they take, seen option by option, the positionals are neither too few nor too many, no two options or places exclude each other, what an unattended run must name is named, the limit is from 1 to 256 and values reach a terminal only when revealed |
| Arguments.SameChecks | apps/cli/src/args.ts:407-578 | The command's checks depend on the limit only as a number |
| Arguments.NoOptionIgnored | apps/cli/src/args.ts:236-346 | On every accepted list of tokens each option is one that the command consumes, or `--debug`, or one that is ignored |
| Arguments.IgnoredExactly | apps/cli/src/args.ts:604-638 | A token or option before the bare `--` never makes a difference if and only if its flag is `--help` or `--version`, with any value or none, or it classifies `__proto__` |
| Arguments.SkippedWithValue | apps/cli/src/args.ts:605-612 | The line `status` with `--help=x` or `--version=x`, for any text x, is accepted with the result of `status` alone |
| Arguments.ProtoVanishes | apps/cli/src/args.ts:130-144 | The line `status` with a classification of `__proto__` is accepted with the result of `status` alone |
| Arguments.EmptySubcommandReplaced | apps/cli/src/args.ts:643-651 | After any command that takes a subcommand, an empty word is dropped by the word after it, whichever it is and whatever follows |
| ShellQuoting.SplitCommandLine | scripts/test-cli-live.ts:660-670 | A shell lexer gives back exactly the quoted arguments if none holds a NUL, and no command line otherwise |
| ShellQuoting.SplitCommandWithInput | scripts/test-cli-live.ts:671-672 | With input the shell sees one pipe, from printf with the whole input as one word into exactly the arguments |
| ShellQuoting.QuotedReadsBack | scripts/test-cli-live.ts:660-661 | A quoted argument is read back as one word, whatever follows it |
| ShellQuoting.EscapedReadsBack | scripts/test-cli-live.ts:661 | Inside quotes the escaped text is read back unchanged, quotes and backslashes included |

## Left out

- RetainedCopies.RetainedCopy: covers writers whose path and copy nobody else changes; `RetainedCopies.RenameKeepsCopy` and `RetainedCopies.ReplacedIsKept` say what remains amid other writers, and `RetainedCopies.OverlappingWriters` why no more does.
- WorkspaceCycles.CollisionHidesCycle: for colliding node sets that overlap it is not shown which graphs lose a cycle.
- CredentialStore.GetReturnsLatestSet: covers sets for services without NUL.
- CredentialStore.NoKeyNoSet: which process a file call belongs to is not tied to the process of a key call; a set may seal under any key returned by then.
- DeviceLogin.Fetch: does not model the time spent on reading the body after the response has arrived.
- IssueScheduler.LaunchBoundOverRuns: a controller killed between launching a worker and saving its result counts as a launch that ended by an error thrown, and limits stay the same over restarts.
- IssueScheduler.Controller.VisitJob: an unsafe-cleanup marker found after a worker ended with another code counts as an interruption after launch, which has the same effect on the queue.
- Arguments.ParseInvertsPrinter: reading a decimal number is a parameter, required only to read back the decimal numerals from 1 to 256.
- PublishService.Service.Finalize: request parsing, device checks and forced problems are one admission flag.
- Cryptography: SHA-256, SHA-384, AES-GCM and signatures are ideal or uninterpreted functions; the CBOR codec is not modelled.
- File modes and directory creation; a failed mode change is a failed step.
- Selection of issues by label and priority, job titles and reasons, and the lengths of the controller's own pauses.
- The lock that keeps a second controller out, whose takeover of stale locks is not tied to the owner it read.
- Row locks, the operation rows of single grants, staged rows, audit facts, the second permission check and problem codes of provisioning; storage limits are answers of the environment.
- Progress messages of the device login, the request for a device code and the verification page.
- The diagnostic sanitizer, correlation ids and endpoint patterns.
- The cache and response deadline around the readiness check.
- Wording of errors and usage lines, terminal colours and truncation of cells.
- HTTP routing, browser panel, OAuth set-up, deployment scripts and end-to-end choreography.
