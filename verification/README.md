# IronGolem OS: verified models of its core algorithms

This project models the parts of IronGolem OS that carry the hardest promises and
proves those promises in Dafny 4.11. `dafny verify dfyconfig.toml` checks all of it.

| files | component | what is proved of it |
|---|---|---|
| `GitObjects`, `GitLog`, `Pathspec`, `GitStore`, `FileWalk` | git-backed checkpoint store, one caller | snapshots do not depend on history; restore is an overlay, with the exact condition for undoing it; pruning keeps the newest snapshots and composes; projects are isolated; `git log` text reads back; the file-count walk is exact |
| `GitProtocol`, `GitCollection`, `GitRuns`, `GitRevival` | the same store under concurrency | over every interleaving of git commands: refs not swapped during a collection name whole linear histories, exactly when compare-and-swap shuts out the second of two writers that read the same value, history only grows between prunes, a prune installs the relinked history it read, and exactly when a garbage collection takes a ref's history away |
| `Plans`, `PlanEngine`, `CheckpointManager` | plan engine and plan checkpoints | exactly which plans terminate, the shape of the event log, replay rebuilds the plan, resuming at any step boundary is equivalent to not stopping |
| `Daemon` | line-delimited JSON daemon | over every interleaving: whole lines, every accepted request answered exactly once and in order, and exactly which inputs can lose a reply to a failed read |
| `PngFilters`, `PngChunks`, `PixelDiff` | PNG decoder and pixel diff | unfiltering does what RFC 2083 says and inverts its filters both ways, any conforming file decodes to its image, the diff count is a symmetric, antitone, triangle-bounded measure |
| `Connector`, `Backoff` | connector workers | over every interleaving of one Connect epoch: inbound channel closed exactly once, no send after close, workers stop only when cancelled, shutdown always in reach; the retry schedule is the capped power of two |
| `TraceStore`, `Sorting` | in-memory span exporter | stored spans are a suffix of exact length, the index is exact, the two queries agree, how many traces are listed |
| `HookManager` | plugin hooks | hook list is the stable sort of the survivors, unregistering erases a plugin's past, `trigger` refines a fold |
| `AuditStore` | audit queries and compliance summary | true counters, sums, and a correct top-ten for any map order |

## How to read the models

Sequential code that changes state is a class whose methods are proved against
functions on values; the theorems are about those functions. Concurrent code is a
step function over labels, and a run is an arbitrary sequence of labels, so a
statement about all label sequences covers every interleaving. A label whose actor
is not at that point does nothing.

Commits are structural values, which takes git's hashes to be injective. Git refuses
to link or name objects that are not in the store (`read-tree`, `write-tree`,
`commit-tree` and `update-ref` all check), and this is part of the protocol model.
A garbage collection is two steps: a mark records what the refs reach, a later sweep
removes everything else, and other commands may fall in between. A project that is
not swapped in that window is safe whatever others do. A workdir is a flat map from
path to content.

The plan engine's loop does not return on some plans. Its pass function keeps the
`continue` of the code; the loop method stops at a pass without progress and
`LoopSettles` proves that such a pass repeats for ever. The step executor is an
arbitrary function of the plan and the node; node ids are unique.

## What the proofs turned up

- `restore` is documented as undoable. It is not always: an oversize file that the
  restored commit overwrites is lost (`OversizeFileIsLost`, and `LossFromEmptyStore`
  for a store that starts empty), files the restore creates stay (`EscapesUndo`), and
  the undo itself fails if the overlaid workdir exceeds the file limit or the
  pre-restore snapshot is empty. `RestoreUndone` gives the exact conditions. With a
  fixed exclude file, excluded files are safe (`RestoreSparesExcluded`).
- `gc --prune=now` runs unlocked on a store that all projects share. A snapshot that
  its mark did not see and that is swapped in before its sweep is reported as taken
  and then swept away (`UnmarkedIsSwept`). `SparedIffSwapsMarked` gives the exact
  condition on the swaps in between, `WholeIffNeverLost` and `SweepKeepsInv` say
  exactly when refs keep their histories, and `SweepLosesSnapshot` is a losing run from
  the empty store. From then on the project reads as one without snapshots: prunes
  end at once, and takes conflict (`LostProjectStaysOut`). Every other project's
  prune then fails at its collection (`LostRefFailsCollection`).
- "At most one of the writers that read the same value succeeds" is true if and only
  if what they read was that there is no ref (`SecondShutOutIff`). If they read a
  commit, a run can always take its history again and prune to its length, which
  rebuilds that very commit, and the second writer goes through
  (`StaleWriterRevived`); `TwoWritersReady` is a run that gets there. It is shut out
  until a prune takes the history back that far (`SameReadConflicts`).
- A plan is described as an acyclic graph, but acyclicity is not enough for
  termination (`AcyclicCanSpin`): the list order has to respect the dependencies up to
  the first node that fails (`TerminatesIffOrderedSoFar`).
- A node left Running by a crash inside a step is never run again and never
  changed (`OnlyPendingTouched`), and the plan can still be reported Completed
  (`InterruptedReportedCompleted`). A successful run completes every node if and only
  if every node was Pending or Completed at the call (`ReportedCompleted`).
- The response to a plan request is commented as the output of the last completed
  node; the code reports the last node in the list. They are the same node if and
  only if that node was Pending or Completed at the request
  (`ResponseIsLastCompleted`); `SkippedLastReportsNothing` is a plan where they differ.
  Read as last in time, they are the same if and only if it was Pending
  (`ResponseIsLatestOutput`).
- A line of input that cannot be read ends the daemon without waiting for its tasks.
  Accepted requests can then go unanswered, if and only if such a line is reached
  after a plan or a model call was accepted (`AnsweredUnlessReadFails`).
- With a negative per-channel tolerance the pixel diff counts every pixel of equal
  images (`CountOfEqual`). The script's header can be read as asking that all four channels differ;
  the code counts a pixel when any channel does. The header also names RFC 7950;
  the format is that of RFC 2083.
- Inflated image data that is too short is accepted as long as every row's filter byte
  is there (`DecodesIff`); what is missing reads as zero. So is a file that ends inside
  an image data chunk (`TruncatedDataAccepted`).
- `maxStoredTraces` is documented as a limit on distinct traces and is not enforced:
  `ListedTraces` counts what is listed after any history, and 1001 exports of distinct
  traces list 1001 (`TraceLimitNotKept`).

## Model

| member | source | states |
|---|---|---|
| GitObjects.AncestorChain | runtime/checkpoints/src/git_shared_store.rs:481-486 | an ancestor's whole history is the tail of its descendant's, strictly shorter unless equal |
| GitObjects.HistoryIsLinear | runtime/checkpoints/src/git_shared_store.rs:12 | every history is linear: each parent is the next entry, the last has none |
| GitObjects.RelinkChain | runtime/checkpoints/src/git_shared_store.rs:357-383 | the rebuilt chain has the kept entries' trees and dates in order, empty subjects replaced |
| GitObjects.PruneKeepsNewest | runtime/checkpoints/src/git_shared_store.rs:307-388 | pruning to k leaves the newest min(k, n) snapshots with their trees, dates and subjects |
| GitObjects.PruneCompose | runtime/checkpoints/src/git_shared_store.rs:307-388 | prune(j) after prune(k) is prune(min(j, k)), commit for commit |
| GitObjects.PruneIdempotent | runtime/checkpoints/src/git_shared_store.rs:307-388 | pruning twice to the same bound changes nothing more |
| GitLog.ReadLog | runtime/checkpoints/src/git_shared_store.rs:263-277 | the line loop collects exactly the lines with three or more fields, in order, line endings stripped |
| GitLog.LineRoundTrip | runtime/checkpoints/src/git_shared_store.rs:265-275 | splitting at most three times recovers the four fields, bars in the subject included |
| GitLog.LogRoundTrip | runtime/checkpoints/src/git_shared_store.rs:331-354 | a printed history reads back record for record, but for a carriage return that ends a subject |
| GitLog.ShortLines | runtime/checkpoints/src/git_shared_store.rs:265-275 | a line with fewer than three fields gives no record, and one without a subject takes the default |
| FileWalk.CheckFileCount | runtime/checkpoints/src/git_shared_store.rs:650-673 | the stack walk with early exit refuses a tree exactly when it holds more files than the limit |
| FileWalk.EntryCounts | runtime/checkpoints/src/git_shared_store.rs:650-673 | wherever it stands, a file adds one, a readable directory its contents, and anything else nothing |
| GitStore.StageIgnoresHistory | runtime/checkpoints/src/git_shared_store.rs:437-448 | the staged tree is the covered files of the workdir, whatever commit seeded the index |
| Pathspec.SelectsSubtree | runtime/checkpoints/src/git_shared_store.rs:297-299 | a restore target selects exactly what lies below the path it names, and that path itself unless it can only be a directory; `.` selects everything |
| Pathspec.PlainTarget | runtime/checkpoints/src/git_shared_store.rs:297-299 | a target without empty or `.` components selects the path of that name and what lies below it, and nothing else |
| Pathspec.PlainDirectory | runtime/checkpoints/src/git_shared_store.rs:297-299 | with a slash at its end it selects only what lies below |
| Pathspec.DotsChangeNothing | runtime/checkpoints/src/git_shared_store.rs:297-299 | `./` in front, `/./` or `//` for a slash, and a `.` at the end change nothing |
| Pathspec.DotSelectsAll | runtime/checkpoints/src/git_shared_store.rs:297-299 | a target of only dots and slashes selects everything |
| Pathspec.RefusedTargets | runtime/checkpoints/src/git_shared_store.rs:827-841 | a target is refused exactly if it is empty, absolute, or has a `..` between slashes or ends |
| GitStore.HexDigits | runtime/checkpoints/src/git_shared_store.rs:816-824 | a commit name is accepted exactly if it is not empty and all its characters are hexadecimal digits |
| GitStore.ChainPresent | runtime/checkpoints/src/git_shared_store.rs:12 | in a closed store a present commit has its whole history present |
| GitStore.TakeKeepsValid | runtime/checkpoints/src/git_shared_store.rs:431-498 | taking a snapshot keeps the store closed and clean |
| GitStore.SnapshotHolds | runtime/checkpoints/src/git_shared_store.rs:437-448 | the one tree that holds exactly the files neither excluded nor oversize, with their contents |
| GitStore.TakeMeans | runtime/checkpoints/src/git_shared_store.rs:431-498 | the store after a take, by its refs, files, date and subject |
| GitStore.PruneMeans | runtime/checkpoints/src/git_shared_store.rs:307-398 | the store after a prune, entry by entry, and what it holds |
| GitStore.TakeIsolated | runtime/checkpoints/src/git_shared_store.rs:431-498 | a take leaves every other project's ref, workdir and history as they were |
| GitStore.RestoreKeepsValid | runtime/checkpoints/src/git_shared_store.rs:283-302 | restoring, successful or not, keeps the store closed and clean |
| GitStore.RestoreIsolated | runtime/checkpoints/src/git_shared_store.rs:283-302 | a restore leaves every other project as it was |
| GitStore.PruneKeepsValid | runtime/checkpoints/src/git_shared_store.rs:307-398 | pruning and collecting garbage keeps the store closed and clean |
| GitStore.PruneIsolated | runtime/checkpoints/src/git_shared_store.rs:389-391 | after pruning one project every other project's history is still present |
| GitStore.RestoreOverlays | runtime/checkpoints/src/git_shared_store.rs:280-302 | selected paths get the commit's content, all others keep theirs, and the tip holds the snapshot of the earlier workdir |
| GitStore.RestoreTip | runtime/checkpoints/src/git_shared_store.rs:283-302 | when restoring a project's own tip succeeds, and what it gives |
| GitStore.OverlayUndone | runtime/checkpoints/src/git_shared_store.rs:280-299 | overlaying a commit and then the earlier snapshot gives the earlier workdir back if and only if the overlay escaped nothing |
| GitStore.RestoreUndone | runtime/checkpoints/src/git_shared_store.rs:280-302 | undoing a restore: exactly when it succeeds, that it brings back every covered path, and exactly when it brings back everything |
| GitStore.EscapesUndo | runtime/checkpoints/src/git_shared_store.rs:280-302 | a restored path that the pre-restore snapshot does not cover keeps the restored content after the undo |
| GitStore.OversizeFileIsLost | runtime/checkpoints/src/git_shared_store.rs:501-521 | an oversize file that a restore overwrites has the commit's content, not its own, after the undo |
| GitStore.LossFromEmptyStore | runtime/checkpoints/src/git_shared_store.rs:280-302 | this happens to a store that starts empty, with both restores succeeding |
| GitStore.RestoreSparesExcluded | runtime/checkpoints/src/git_shared_store.rs:443-444 | a restore never touches an excluded file |
| GitStore.ListAfterTake | runtime/checkpoints/src/git_shared_store.rs:245-278 | a new snapshot heads the list and pushes the rest back; an unchanged workdir leaves the list alone |
| GitStore.HeadAfterTake | runtime/checkpoints/src/git_shared_store.rs:245-278 | the head of the list after a take holds exactly the covered files, and is the old head or has the given date and subject with the old list behind it |
| GitStore.GitSharedStore.TakeInner | runtime/checkpoints/src/git_shared_store.rs:431-498 | afterwards the tip holds exactly the covered files of the workdir: the old tip if it did already, else a new commit on it with the given date and subject; no other ref moves |
| GitStore.GitSharedStore.Take | runtime/checkpoints/src/git_shared_store.rs:235-242 | errors exactly for a missing workdir or too many files, changing nothing; otherwise the tip holds exactly the covered files, with the given date and subject if it is new |
| GitStore.GitSharedStore.ListEntries | runtime/checkpoints/src/git_shared_store.rs:245-278 | the entries read back from git's text are the first min(limit, n) of the project's history, newest first |
| GitStore.GitSharedStore.Restore | runtime/checkpoints/src/git_shared_store.rs:283-302 | exactly when it succeeds and, when not, the first failing check in order; a refusal changes nothing; a failing checkout leaves the pre-restore snapshot; otherwise selected files have the commit's content and all others their own |
| GitStore.GitSharedStore.Rebuild | runtime/checkpoints/src/git_shared_store.rs:357-383 | the oldest-first loop builds the relinked chain, all of it in the store |
| GitStore.GitSharedStore.RebuildAndCollect | runtime/checkpoints/src/git_shared_store.rs:357-391 | swapping in the rebuilt chain and collecting leaves exactly the pruned state |
| GitStore.GitSharedStore.Prune | runtime/checkpoints/src/git_shared_store.rs:307-398 | zero is refused; otherwise the newest min(k, n) entries are left with their trees, dates and subjects, other refs stay, and after a rewrite the store holds exactly what the refs reach |
| GitCollection.WholeUnlessLost | runtime/checkpoints/src/git_shared_store.rs:389-391 | a step breaks a ref exactly when it is a sweep whose mark did not see the ref's commit |
| GitCollection.SweepKeepsInv | runtime/checkpoints/src/git_shared_store.rs:389-391 | a sweep leaves every ref whole if and only if everything the refs now reach had been marked |
| GitCollection.WholeIffNeverLost | runtime/checkpoints/src/git_shared_store.rs:387-391 | over every run, a ref is whole at every moment if and only if no sweep of the run takes its commit away |
| GitProtocol.RunKeepsSound | runtime/checkpoints/src/git_shared_store.rs:431-562 | every interleaving, sweeps included, leaves a store in which every object present has all it refers to |
| GitCollection.RefsNameWholeHistories | runtime/checkpoints/src/git_shared_store.rs:524-562 | after every interleaving in which no swap of the project falls between a mark and its sweep, its ref names a linear history whose commits, trees and blobs are all present |
| GitProtocol.AdvanceReplacesParent | runtime/checkpoints/src/git_shared_store.rs:470-498 | a successful take's parent is exactly the ref value it replaced, and its tree differs from it |
| GitProtocol.FailedAttemptChangesNothing | runtime/checkpoints/src/git_shared_store.rs:537-562 | a failed swap changes only the job's outcome; a moved ref is a conflict |
| GitProtocol.OnlySwapsMoveRefs | runtime/checkpoints/src/git_shared_store.rs:493-494 | nothing but a successful swap on a project moves its ref |
| GitProtocol.HistoryOnlyGrows | runtime/checkpoints/src/git_shared_store.rs:431-562 | between prunes the old history is an ancestor chain of the new one, over every run |
| GitProtocol.SameReadConflicts | runtime/checkpoints/src/git_shared_store.rs:534-562 | once one writer has swapped, every other writer that read the same value gets a conflict and changes nothing: always if it read no ref, else until a prune takes the history back to the value read or further |
| GitProtocol.ReadNothingConflicts | runtime/checkpoints/src/git_shared_store.rs:534-562 | a take that read no ref never goes through once there is one, through any number of prunes |
| GitProtocol.PruneInstallsPruned | runtime/checkpoints/src/git_shared_store.rs:313-387 | although tip, count and history are read separately while takes go on, a prune that goes through installs exactly the pruned form of the value it replaces, unless another prune of the project did in between |
| GitProtocol.PruneInstallsWhatItRead | runtime/checkpoints/src/git_shared_store.rs:331-387 | whatever else happens, a prune that goes through installs the relinked newest entries of the history it read |
| GitCollection.ProjectsIsolated | runtime/checkpoints/src/git_shared_store.rs:387-391 | a project nobody swaps keeps its ref and all it reaches, whatever others do and wherever their commands fall between marks and sweeps |
| GitRuns.UninterruptedTake | runtime/checkpoints/src/git_shared_store.rs:431-498 | five commands of one writer without interference put the staged tree on top of the ref |
| GitRuns.UninterruptedPrune | runtime/checkpoints/src/git_shared_store.rs:307-387 | a prune without interference, linking one commit per command, succeeds and installs the pruned tip |
| GitRevival.RunIsHonest | runtime/checkpoints/src/git_shared_store.rs:431-498 | every history a run from the empty store produces is named, coverable and never repeats a tree, lost ones included |
| GitRevival.ReplantThenPrune | runtime/checkpoints/src/git_shared_store.rs:357-387 | a history taken again on any base and pruned to its length is the same commit again |
| GitRevival.StaleWriterRevived | runtime/checkpoints/src/git_shared_store.rs:357-387 | whatever commit two writers had read, after the first has advanced from it a run lets the second through too |
| GitRevival.SecondShutOutIff | runtime/checkpoints/src/git_shared_store.rs:534-562 | in any world reached from the empty store, no continuation lets the second writer through if and only if they had read no ref |
| GitRuns.TwoWritersReady | runtime/checkpoints/src/git_shared_store.rs:235-242 | that situation is reached by a run from the empty store |
| GitCollection.UnmarkedIsSwept | runtime/checkpoints/src/git_shared_store.rs:387-391 | a ref at a commit the mark did not see is lost at the sweep, whatever happens in between except a prune of the project |
| GitCollection.SparedIffSwapsMarked | runtime/checkpoints/src/git_shared_store.rs:387-391 | from mark to sweep, the project is spared if and only if each take of it that went through swapped in a marked commit |
| GitCollection.LostRefBlocksTakes | runtime/checkpoints/src/git_shared_store.rs:470-494 | while the commit a ref names is missing, no take of the project goes through |
| GitCollection.LostRefFailsCollection | runtime/checkpoints/src/git_shared_store.rs:389-391 | a collection fails, leaving all objects, if and only if some project has lost its commit |
| GitCollection.LostProjectStaysOut | runtime/checkpoints/src/git_shared_store.rs:524-533 | a project that has lost its commit reads as one without snapshots: its prune ends at once and a take begun then never goes through |
| GitRuns.SweepLosesSnapshot | runtime/checkpoints/src/git_shared_store.rs:389-391 | a run from the empty store in which another project's prune sweeps away a snapshot reported as taken |
| Plans.FindNode | runtime/core/src/plan.rs:55-58 | the first node with the id, or none |
| Plans.NextPending | runtime/core/src/plan.rs:65-70 | the first Pending node in list order, or none |
| Plans.SetNode | runtime/core/src/plan.rs:60-63 | overwrites the first node with the id and no other |
| PlanEngine.LivePass | runtime/workflow/src/engine.rs:43-123 | a pass with met dependencies settles the first Pending node, touches no other, and emits its pair of events |
| PlanEngine.PassRecordsAnswer | runtime/workflow/src/engine.rs:61-123 | the executor is asked about the node in the plan that has it Running, and its answer is recorded on the node, in the event and, on failure, in the plan and the result |
| PlanEngine.EndOfRun | runtime/workflow/src/engine.rs:95-132 | a run that returns ends with AllCompleted and the plan Completed, or with the failure it reports and the plan Failed |
| PlanEngine.FixedPoint | runtime/workflow/src/engine.rs:56-59 | a pass without progress repeats for ever |
| PlanEngine.LoopSettles | runtime/workflow/src/engine.rs:43-124 | after more passes than there are Pending nodes the loop has returned or is stuck, and nothing changes again |
| PlanEngine.TerminatesIffDriven | runtime/workflow/src/engine.rs:43-124 | the loop returns if and only if the state it settles in has a result |
| PlanEngine.TerminatesIffOrderedSoFar | runtime/workflow/src/engine.rs:43-123 | for any executor, the loop returns if and only if the list order respects the dependencies up to the first node that fails |
| PlanEngine.TerminatesIffOrdered | runtime/workflow/src/engine.rs:43-59 | ordered plans terminate with any executor; with an always-succeeding one only ordered plans do |
| PlanEngine.OrderedIsAcyclic | runtime/core/src/plan.rs:65-70 | of plans that have not started, the ordered ones are acyclic |
| PlanEngine.AcyclicCanSpin | runtime/workflow/src/engine.rs:43-59 | an acyclic plan on which the loop never returns, whatever the executor |
| PlanEngine.EventsShape | runtime/workflow/src/engine.rs:69-128 | events are (Started Completed)* then AllCompleted or Started Failed, all of the plan |
| PlanEngine.StartsJustified | runtime/workflow/src/engine.rs:46-76 | every started step was Pending and each dependency was Completed before the start |
| PlanEngine.NoStepStartsTwice | runtime/workflow/src/engine.rs:61-76 | no step is started twice |
| PlanEngine.ReplayRebuilds | runtime/core/src/event.rs:1-2 | replaying the events over the initial plan gives the final statuses, outputs and errors |
| PlanEngine.LogTellsTheRun | runtime/workflow/src/engine.rs:32-142 | the four facts above together, for the whole log of every execution that returns |
| PlanEngine.OnePassPerPending | runtime/workflow/src/engine.rs:43-132 | a successful run starts exactly the Pending nodes in list order and returns after one pass each |
| PlanEngine.OnlyPendingTouched | runtime/core/src/plan.rs:65-70 | a node not Pending at the call is never changed |
| PlanEngine.EndsCompleted | runtime/workflow/src/engine.rs:43-132 | in a run that ends Ok a node ends Completed if and only if it began Pending or Completed |
| PlanEngine.ReportedCompleted | runtime/workflow/src/engine.rs:124-132 | a plan reported Completed has every node Completed if and only if every node began Pending or Completed |
| PlanEngine.InterruptedReportedCompleted | runtime/workflow/src/engine.rs:124-132 | a plan whose only node was left Running is reported Completed with the node still Running |
| PlanEngine.ResumeEquivalent | runtime/workflow/src/engine.rs:32-132 | executing from the plan at any step boundary gives the same final plan and result and exactly the missing events |
| PlanEngine.Engine.Pass | runtime/workflow/src/engine.rs:43-123 | one loop body in place: plan, log and outcome of the pass function |
| PlanEngine.Engine.Execute | runtime/workflow/src/engine.rs:32-132 | final plan, log and result of the whole loop, or that it spins |
| CheckpointManager.RecordedStepIsLatest | runtime/checkpoints/src/manager.rs:28-33 | from an all-Pending plan, the recorded step at any boundary is that of the latest completion event |
| CheckpointManager.Manager.CreateCheckpoint | runtime/checkpoints/src/manager.rs:22-43 | saves the plan under its id with the last Completed node in list order |
| CheckpointManager.Manager.Rollback | runtime/checkpoints/src/manager.rs:46-67 | gives back the plan that the last checkpoint made under the id was made of, or not found exactly when none was |
| CheckpointManager.Manager.RollbackToLatest | runtime/checkpoints/src/manager.rs:70-80 | gives back a saved plan with the latest creation time, or an error exactly when there is none |
| CheckpointManager.Manager.CrashAndResume | runtime/checkpoints/src/manager.rs:22-67 | saving at a boundary, rolling back and executing ends as the uninterrupted run and logs exactly the events still missing |
| Daemon.ProcessRequest | runtime/runtimed/src/loop_io.rs:37-74 | returns the replies to a plan if and only if the plan returns; `PlanAnswered` says what they are |
| Daemon.PlanAnswered | runtime/runtimed/src/loop_io.rs:37-74 | the log event by event and one response: completed if and only if the plan is, with the last node's output, and otherwise with the error of the failed step and no output |
| Daemon.OthersAnswered | runtime/runtimed/src/loop_io.rs:98-157 | what every other line is answered with; a model call asks for system text, blank line and prompt, and a failure is reported as one |
| Daemon.ResponseIsLastCompleted | runtime/runtimed/src/loop_io.rs:54-64 | the reported node is the last Completed one if and only if it was Pending or Completed at the request, and its output is then reported |
| Daemon.SkippedLastReportsNothing | runtime/runtimed/src/loop_io.rs:54-64 | a plan whose step completes with an output while the response reports none |
| Daemon.ResponseIsLatestOutput | runtime/runtimed/src/loop_io.rs:54-64 | the latest completion is of the reported node if and only if it was Pending at the request, and its output is then reported |
| Daemon.NewlineMovesHead | runtime/runtimed/src/loop_io.rs:77-96 | ending a line moves exactly the head of the holder's queue to the output |
| Daemon.RunKeepsInv | runtime/runtimed/src/main.rs:47-145 | over every interleaving, written plus still to write is the reply of each line |
| Daemon.CompleteRunAnswersAll | runtime/runtimed/src/main.rs:47-145 | a complete run's output is whole lines holding exactly each accepted line's replies, in order |
| Daemon.StepsRunOut | runtime/runtimed/src/main.rs:138-145 | every effective step uses up remaining work, so no run goes on for ever |
| Daemon.StuckOnlyWhenComplete | runtime/runtimed/src/main.rs:138-145 | on plans that return, a run that can go no further is complete |
| Daemon.LosingRun | runtime/runtimed/src/main.rs:49-50 | a run in which a failed read ends the process before an accepted request is answered |
| Daemon.AnsweredUnlessReadFails | runtime/runtimed/src/main.rs:47-145 | every accepted line is answered in every ended run if and only if no unreadable line is reached after a plan or model call was accepted |
| Daemon.ClientSeesReplies | runtime/core/src/ipc.rs:3-5 | a request id used once selects exactly its request's replies from the output |
| PngFilters.PaethIsNearest | scripts/png-diff.ts:148-157 | the Paeth predictor is the nearest neighbour with ties to left, then up |
| PngFilters.ReconstructsByStandard | scripts/png-diff.ts:129-162 | every reconstructed byte is what RFC 2083 section 6 says for its filter: the raw byte plus nothing, left, up, their average rounded down, or the nearest neighbour, modulo 256; 0 where the data is missing |
| PngFilters.FilterAfterUnfilter | scripts/png-diff.ts:129-162 | filtering a reconstructed row gives the encoded line back |
| PngFilters.UnfilterAfterFilter | scripts/png-diff.ts:129-162 | reconstructing a filtered row gives the row back |
| PngFilters.DecodeAfterEncode | scripts/png-diff.ts:123-176 | decoding undoes encoding for every image and every filter choice |
| PngFilters.EncodeAfterDecode | scripts/png-diff.ts:123-176 | re-encoding a decoded stream with its own filters gives the stream back |
| PngFilters.DecodesIff | scripts/png-diff.ts:126-163 | decoding fails at the first row whose filter byte is missing or unknown, and only there |
| PngFilters.ExpandedAt | scripts/png-diff.ts:165-174 | each channel of each pixel is at its position, alpha 255 for RGB |
| PngFilters.PixelAt | scripts/png-diff.ts:165-174 | byte c of pixel (x, y) is byte c of that pixel's source bytes, or 255 for a missing alpha |
| PngFilters.EveryByteWritten | scripts/png-diff.ts:165-174 | every output byte is some pixel's channel |
| PngFilters.WrittenOnce | scripts/png-diff.ts:165-174 | no output byte is written for two different channels, pixels or rows |
| PngFilters.Unfilter | scripts/png-diff.ts:126-163 | the scanline loop computes the row that `ReconstructsByStandard` describes |
| PngFilters.Expand | scripts/png-diff.ts:165-174 | the expansion loop writes a row's RGBA bytes at its base and keeps what precedes |
| PngFilters.DecodeRow | scripts/png-diff.ts:126-175 | one turn of the row loop extends the decoded prefix by one row |
| PngFilters.Decode | scripts/png-diff.ts:119-178 | the row loop's buffer is the expansion of the decoded rows, pixel by pixel as in `PixelAt`, or the first unknown filter as in `DecodesIff` |
| PngChunks.ParseChunks | scripts/png-diff.ts:76-116 | the cursor loop, with bad magic and every out-of-range read as an error |
| PngChunks.ReadWriteU32 | scripts/png-diff.ts:92 | big-endian lengths read back |
| PngChunks.MostSignificantFirst | scripts/png-diff.ts:92 | a length is its four bytes, most significant first |
| PngChunks.HeaderRefused | scripts/png-diff.ts:100-111 | by the bytes of the file, exactly which leading headers are refused, for which reason, and with what dimensions the loop goes on |
| PngChunks.StrayBytesRefused | scripts/png-diff.ts:91-92 | one to three bytes where a chunk should start are an error |
| PngChunks.TruncatedDataAccepted | scripts/png-diff.ts:96-113 | image data cut short by the end of the file is accepted as far as it goes |
| PngChunks.WalkIsFold | scripts/png-diff.ts:84-116 | on a serialised chunk sequence the byte loop does what the sequence says, up to IEND |
| PngChunks.FoldSummary | scripts/png-diff.ts:100-118 | headers and joined IDAT bytes before IEND determine the result |
| PngChunks.SplitDoesNotMatter | scripts/png-diff.ts:84-118 | files with equal headers and equal joined image data parse alike |
| PngChunks.Decode | scripts/png-diff.ts:76-179 | the whole decoder in its order of errors |
| PngChunks.DecodesConformingFile | scripts/png-diff.ts:76-179 | any conforming encoding of an image decodes to its RGBA bytes |
| PngChunks.ConformingHeaderFails | scripts/png-diff.ts:118-163 | under a conforming header, data that does not inflate fails as such, and otherwise the file decodes or names its first row with a bad filter byte |
| PixelDiff.CountDiffering | scripts/png-diff.ts:197-208 | the loop counts the pixels with some channel beyond the tolerance |
| PixelDiff.DiffersIff | scripts/png-diff.ts:197-208 | a pixel counts if and only if one of its four channels is off by more than the tolerance, either way |
| PixelDiff.CountIsNumber | scripts/png-diff.ts:197-208 | the count is the size of the set of such pixels |
| PixelDiff.Compare | scripts/png-diff.ts:186-211 | size mismatch, or a pass exactly when there are pixels and the fraction is below the threshold |
| PixelDiff.CountBounded | scripts/png-diff.ts:197-208 | never more differing pixels than pixels |
| PixelDiff.CountSymmetric | scripts/png-diff.ts:197-208 | the count is symmetric |
| PixelDiff.CountOfEqual | scripts/png-diff.ts:197-208 | equal images count zero if and only if the tolerance is not negative or there are no pixels |
| PixelDiff.CountAntitone | scripts/png-diff.ts:197-208 | a larger tolerance never counts more |
| PixelDiff.CountTriangle | scripts/png-diff.ts:197-208 | count(a, c, s+t) is at most count(a, b, s) + count(b, c, t) |
| Connector.RunKeepsInv | connectors/slack/slack.go:106-219 | over every interleaving: one winning Disconnect, one worker, and a channel closed by its owner only |
| Connector.ClosedExactlyOnce | connectors/slack/slack.go:106-219 | neither channel is closed twice, nothing is sent after the close, and after shutdown it is closed |
| Connector.ShutdownInReach | connectors/slack/slack.go:106-219 | from every state of every epoch some run, beginning with a Disconnect if connected and cancelling no caller's context, ends with both channels closed once and no disconnecting call or worker left |
| Connector.OpenWhileWorkerAlive | connectors/discord/discord.go:83-103 | while a worker lives its channel is open, even after Disconnect returned |
| Connector.WorkersStopOnlyWhenCancelled | connectors/worker.go:114-191 | a worker exits only if its context was cancelled or Disconnect closed the done channel |
| Connector.CancelledWorkerWindsDown | connectors/worker.go:121-149 | a cancelled worker never re-enters a session and every step of its own leads towards exit |
| Connector.FailureWaits | connectors/worker.go:135-148 | after a failed session no other begins before the delay has run out |
| Connector.UncancelledRetries | connectors/worker.go:121-149 | a worker that is not cancelled can always get into its next session by itself |
| Connector.Connector.Connect | connectors/slack/slack.go:69-101 | a validated Connect starts a fresh connected epoch without a worker; a failed one leaves the epoch alone, though it replaces the app token |
| Connector.Connector.Disconnect | connectors/slack/slack.go:106-123 | a call on a connected connector disconnects it and goes on to signal, any other changes nothing; the one that goes on finds the done channel open, no other call closing it, and leaves the inbound channel to a worker exactly when there is one |
| Connector.Connector.Receive | connectors/slack/slack.go:189-211 | the first call of an epoch, and only it, starts a worker if there is an app token; it then finds the channel open and no other worker |
| Backoff.ScheduleDoubles | connectors/worker.go:86-92 | doubling and capping step by step is capping the power |
| Backoff.JitterBounds | connectors/worker.go:94-101 | a jittered delay is within a quarter of its base |
| Backoff.Backoff.constructor | connectors/worker.go:68-81 | one second and one minute for non-positive arguments, cap never below start |
| Backoff.Backoff.Next | connectors/worker.go:83-101 | returns the scheduled delay, scaled by 0.75 plus half the roll and rounded down, and doubles the schedule up to the cap |
| Backoff.Backoff.Reset | connectors/worker.go:103-108 | returns the schedule to its start |
| Backoff.RunWorker | connectors/worker.go:114-150 | the delays of any history of sessions are the schedule of its runs of failures |
| Backoff.FailuresCounted | connectors/worker.go:121-149 | the failures in a row are those since the last clean session |
| Backoff.DelaysCapped | connectors/worker.go:31-41 | no delay of any history exceeds the cap by more than the jitter |
| TraceStore.StoredIsSuffix | services/pkg/telemetry/trace_store.go:59-101 | after n exports the stored spans are the suffix of the history of length n, or 7501 + (n - 10001) mod 2500 beyond 10000 |
| TraceStore.PositionsExact | services/pkg/telemetry/trace_store.go:41 | an index entry is exactly the increasing list of positions holding the trace |
| TraceStore.IndexSnoc | services/pkg/telemetry/trace_store.go:68-70 | appending a span and its index keeps the index exact |
| TraceStore.MetaMeaning | services/pkg/telemetry/trace_store.go:118-141 | a summary has the count, least start, greatest end, last root name and error flag of its trace's spans |
| TraceStore.ListAgreesWithGet | services/pkg/telemetry/trace_store.go:104-202 | listed iff found, with matching count, start and status |
| TraceStore.ListedEntry | services/pkg/telemetry/trace_store.go:118-176 | an entry has the name of the last span without a parent, the first start, and the duration to the last end, or none if no span has ended |
| TraceStore.ListedTraces | services/pkg/telemetry/trace_store.go:104-176 | after any history a full listing has one entry per distinct trace among the last stored-length exports |
| TraceStore.AllTracesListed | services/pkg/telemetry/trace_store.go:59-101 | when all traces are distinct, as many are listed as spans are stored |
| TraceStore.TraceLimitNotKept | services/pkg/telemetry/trace_store.go:13-14 | 1001 exports of distinct traces list 1001, over the declared limit |
| TraceStore.CountsAddUp | services/pkg/telemetry/trace_store.go:118-128 | the counts of a full listing sum to the stored spans |
| TraceStore.SortBy | services/pkg/telemetry/trace_store.go:194-196 | a sorted permutation |
| TraceStore.InMemoryExporter.EvictOldest | services/pkg/telemetry/trace_store.go:82-101 | drops the oldest quarter and rebuilds an exact index |
| TraceStore.InMemoryExporter.ExportSpan | services/pkg/telemetry/trace_store.go:59-76 | keeps the stored spans and the index exact for the history so far |
| TraceStore.InMemoryExporter.GetTrace | services/pkg/telemetry/trace_store.go:179-202 | a start-sorted permutation of the trace's spans, or nothing exactly when there are none |
| TraceStore.InMemoryExporter.Summarise | services/pkg/telemetry/trace_store.go:118-141 | the pass over the spans yields every trace's summary |
| TraceStore.InMemoryExporter.Collect | services/pkg/telemetry/trace_store.go:144-147 | each summary once, in any map order |
| TraceStore.InMemoryExporter.ListTraces | services/pkg/telemetry/trace_store.go:104-176 | the first `limit` of a full listing sorted by start, newest first |
| HookManager.StableSortUnique | packages/plugin-sdk/src/hooks.ts:84 | a list has only one stable sort by priority |
| HookManager.StableSort | packages/plugin-sdk/src/hooks.ts:84 | sorted by priority, order kept among equals |
| HookManager.StableSortKeepsAll | packages/plugin-sdk/src/hooks.ts:84 | a stable sort keeps every entry and puts lower priorities first |
| HookManager.UnregisterKeepsStable | packages/plugin-sdk/src/hooks.ts:90-97 | removing a plugin's entries keeps the list the stable sort of what survives |
| HookManager.RemovesPluginOnly | packages/plugin-sdk/src/hooks.ts:90-97 | removal drops all of a plugin's entries and keeps every other, in order |
| HookManager.ErasesRegistrations | packages/plugin-sdk/src/hooks.ts:87-97 | what survives an unregistration is what survives without the plugin's registrations |
| HookManager.UnregisterErasesPlugin | packages/plugin-sdk/src/hooks.ts:76-97 | after unregistering, and any later calls, the list is the one of a history without the plugin |
| HookManager.Trigger | packages/plugin-sdk/src/hooks.ts:108-133 | the loop is the left fold over the type's hooks, a throwing handler rejects |
| HookManager.RunsHooksOfType | packages/plugin-sdk/src/hooks.ts:108-114 | the hooks that run are those of the type, each as often as listed, in order |
| HookManager.RejectsIffThrows | packages/plugin-sdk/src/hooks.ts:108-133 | a BeforeAction run rejects if and only if a handler throws before any has aborted |
| HookManager.FireAndForget | packages/plugin-sdk/src/hooks.ts:102-104 | other types run every handler on the original payload and return it unchanged |
| HookManager.AbortIsLast | packages/plugin-sdk/src/hooks.ts:121-125 | a BeforeAction run stops exactly at the first abort |
| HookManager.PayloadIsThreaded | packages/plugin-sdk/src/hooks.ts:117-132 | each BeforeAction handler sees the payload its predecessors left, and the last one is returned |
| HookManager.PayloadIsLastModified | packages/plugin-sdk/src/hooks.ts:126-130 | the payload left by some results is that of the last one that modified it, or the original |
| HookManager.Manager.RegisterHook | packages/plugin-sdk/src/hooks.ts:76-85 | the list holds the survivors, each as often as registered, by ascending priority and then by registration time |
| HookManager.Manager.UnregisterPlugin | packages/plugin-sdk/src/hooks.ts:90-97 | the backwards splice loop removes exactly the plugin's entries |
| AuditStore.MatchesFilter | services/pkg/audit/audit.go:275-295 | the chain of early returns accepts exactly the events meeting every criterion given |
| AuditStore.MatchesIffMeets | services/pkg/audit/audit.go:275-321 | an event matches if and only if it meets every criterion given, severities compared by their place in none, low, medium, high, critical |
| AuditStore.Contains | services/pkg/audit/audit.go:297-304 | membership |
| AuditStore.MatchingExact | services/pkg/audit/audit.go:180-192 | a query returns each matching event as often as recorded and no other |
| AuditStore.MatchingConcat | services/pkg/audit/audit.go:175-192 | recording more events only appends to a query's result |
| AuditStore.InMemoryStore.Query | services/pkg/audit/audit.go:180-192 | the events that meet the filter, each as often as recorded, in recording order |
| AuditStore.InMemoryStore.ComplianceSummary | services/pkg/audit/audit.go:217-272 | true counters, tallies and top actors of the events of the period |
| AuditStore.RiskCountsAddUp | services/pkg/audit/audit.go:248 | in any order the risk counters sum to the total |
| AuditStore.DecisionCountsAddUp | services/pkg/audit/audit.go:235-246 | the five decision counters sum to the total if and only if every decision is known |
| AuditStore.TopHasRightLength | services/pkg/audit/audit.go:252-269 | the top list has min(10, distinct actors) entries |
| AuditStore.CollectActors | services/pkg/audit/audit.go:253-258 | one summary per actor, in any map order |
| AuditStore.SortDescending | services/pkg/audit/audit.go:259-266 | the exchange sort orders by count, descending, keeping the same entries |
| AuditStore.PrefixIsTop | services/pkg/audit/audit.go:259-269 | the first ten of the sorted list are true counts that no dropped actor exceeds |

## Left out

- Git subprocesses, timeouts, stderr matching, object storage formats, file modes, symlinks, file and directory clashes, `.gitignore` files and pathspec patterns; a tree is a flat map.
- GitStore.GitSharedStore.Take: the file limit is checked against the number of files in the workdir map; `FileWalk` models the directory walk itself, and the two are not connected.
- GitProtocol.RunKeepsSound: staging is one step and keeps its own index; takes of one project that overlap while staging share an index file in the code.
- GitCollection.RefsNameWholeHistories: a sweep removes all unmarked objects in one step, where git deletes them one after another.
- GitProtocol.PruneInstallsPruned: says nothing when another prune of the same project goes through in between; `PruneInstallsWhatItRead` covers that case.
- The text from which a prune reads its history: it is taken as commits, and `GitLog.LogRoundTrip` covers the text.
- Commit messages are their subject line; git's reduction of a longer message to its first paragraph is not modelled.
- `status`, `touch_meta`, store bootstrap and the home-directory guard: file-system bookkeeping without further consequence.
- JSON encoding and decoding, taken to be the identity; node kinds, risk metadata, timestamps and workspace ids of plans and events.
- CheckpointManager.Manager.RollbackToLatest: the SQL store is a map keyed by checkpoint id; ties in the creation time may go either way; pruning of plan checkpoints is not modelled.
- A failing stdout write, a panicking task and tracing output of the daemon.
- zlib, which is a parameter of the decoder; CRC values, which the code skips; failure to allocate a very large image.
- PixelDiff.Compare: the fraction and threshold are reals; a tolerance or threshold that is not a number is not modelled.
- HTTP, WebSocket and signal-cli sessions: a session sends any number of messages and ends in any way.
- Connector.ClosedExactlyOnce: one Connect epoch; a Connect while the previous worker still runs is not modelled.
- The webhook, email and Telegram connectors, whose polling and closing differ.
- Backoff.Backoff.Next: durations are unbounded integers, so doubling does not overflow.
- TraceStore.InMemoryExporter.ListTraces: the duration is a number rather than its formatted text; span attributes are not modelled.
- HookManager.Trigger: priorities are real numbers, so a priority that is not a number is not modelled; the context object is not passed.
- CSV and JSON export of the audit store.
- SQL-backed stores, policy layers, plugin registry, provider clients, UI, internationalisation and design tokens.
