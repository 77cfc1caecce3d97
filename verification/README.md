# Verification models for Ditch

Dafny models of the parts of Ditch in which several functions, several threads or
several runs of the daemon have to agree, with proofs of what they keep.  Each module
models one component; loops, mutable fields and critical sections of the Rust code are
methods of classes, and every such method is proved against a function of the old state.
The theorems are about those functions: about every input, every interleaving of the
critical sections, or every run including restarts.

| module | component |
|---|---|
| `Glob`, `ConfigText`, `ConfigPaths`, `IncludeSearch`, `ConfigAppend` | SSH configuration: wildcard matching, words and directives, paths and what an Include stands for, the search through Include, adding a host |
| `TaskWorkflow` | tasks, their workflow and the revision that counts their changes |
| `TaskStore` | transactions on tasks, request receipts and replays, recovery after a restart |
| `AcceptanceLoop` | the loop of attempts, validation, retries and review, and everybody who acts on the same row |
| `AcceptanceInvariant`, `AcceptanceVerdict`, `AcceptanceHistory`, `AcceptanceExamples` | what every step keeps, the rules for judging and giving up, theorems over whole runs, and two concrete runs |
| `AcceptanceRequests` | what users, agents and launches do to the row around the loop |
| `AcceptanceRuntime` | the sections of the loop in place |
| `Leases` | writer reservations and leases, their rotation between agent ids, the owners of loops |
| `CloneOperation` | daemon-owned clones and the directories they may remove |
| `Publish`, `Import` | GitHub issues made from tasks, and tasks made from GitHub issues |
| `TurnProtocol` | one agent turn over the App Server: event gate, turn start, approvals |
| `Pagination` | pages of an append-only transcript |
| `Snapshot` | the byte stream behind a workspace fingerprint |
| `Wrappers` | options, results, bytes |

`dafny verify dfyconfig.toml` checks everything.

## What the models assume

- Fresh ids (UUIDs, agent ids, inode numbers) were never used before.  SHA-256 is injective,
  so streams stand for their digests.
- A transaction commits all of its writes or none.  A row is saved before it is published and
  under the same lock (crates/ditchd/src/acceptance_runtime.rs:27-35), so one copy of a task
  stands for the stored and the published one.
- Calls that leave the process (Git, validators, workers, the relay, the disk) are parameters of
  the step that makes them and may answer in any way at any time; so may clocks and deadlines.
- Creating a directory exclusively and reading its inode is one step, as are an ownership check
  and the removal after it.
- The relay makes at most one issue per request id and refuses an issue type only for a request
  id it has not used yet.
- A string stands for the bytes of its text wherever a length is compared.
- Every caller of the task store builds its rows from the published ones under the lock, so a row
  it writes is never older than the stored one, and names a task at most once in a batch
  (crates/ditchd/src/acceptance_runtime.rs:1332-1342); `AcceptanceInvariant.RevisionsGrow` shows the
  former for everybody who acts on a task in `AcceptanceLoop`.
- A path is a list of components; which file it leads to and what a directory lists are arbitrary, and HOME, if set, is
  absolute.
- Between the request that launches a loop and the loop's registration no event reports about the agent of the row; what
  such an event does to its lease is in `Leases`.
- A loop is started for an agent that is idle, holds no lease, and is bound to no other launch or
  loop (crates/ditchd/src/task_runtime.rs:243-275, crates/ditchd/src/task_queue_runtime.rs:89-102).

## Where the code does less than was promised

Each of these is stated with the exact condition under which the promise holds, or with a concrete run.

- A wildcard pattern with a star can miss a value that contains a literal star, because the literal
  comparison comes before the star (`Glob.CorrectForAllValues`, `Glob.CorrectForAllPatterns`).
- A question mark of a pattern stands for one byte of a name, not one character (`ConfigPaths.WildcardMeansMatches`).
- An Include reached under a second name of its file is resolved against the directory of the first name only, so the
  search can miss hosts, unless the directories of all names of a file resolve every pattern alike
  (`IncludeSearch.SearchIsAlwaysCompleteIff`).
- A message numbered with the greatest 64-bit integer is never listed (`Pagination.FollowBackIsTranscript`).
- docs/ACCEPTANCE_ENGINE.md:80-81 says that an approval stops automatic retries.  An approval saved after
  the loop copied the approvals of the attempt does not (`AcceptanceExamples.ApprovedAttemptIsRetried`).
- docs/ACCEPTANCE_ENGINE.md:36 offers revalidation of a submission in review.  The launch that follows is
  refused for every task not in progress, so it always blocks the task
  (`AcceptanceHistory.RevalidationNeedsProgress`).
- If the save that blocks a task fails while an attempt is active, that attempt stays active without a loop, and can do so even
  across a restart (`AcceptanceHistory.OneActiveAttemptIff`, `AcceptanceExamples.LostBlockLeavesAttemptActive`).
- A loop that moved to a new agent id but could not save that leaves the row with the old agent, whose report can put the
  task into review before the loop blocks it (`AcceptanceHistory.OldAgentOvertakes`).
- A loop takes its lease in one critical section and becomes its owner in the next.  Between the two any event about its
  agent can release the lease again (crates/ditchd/src/runtime_shared.rs:601-605).  A loop for validation only then runs
  without one while another writer gets the workspace (`Leases.LeaselessLoopMeetsAWriter`); any other loop gets its lease
  back with its first worker or ends (`Leases.FirstWorkerRestoresTheLease`).
- Forgetting a publication whose type was refused is safe only while the task is linked already or nobody still carries the
  request; otherwise a task can get two issues (`Publish.UnsafeForgettingDuplicates`).

## Model

| member | source | states |
|---|---|---|
| `Glob.WildcardMatch` | crates/ditch_ssh/src/lib.rs:249-275 | the loop over both indices ends and answers what the recursive scan answers |
| `Glob.AcceptsIsSound` | crates/ditch_ssh/src/lib.rs:249-275 | an answer of yes is always right: the value matches the declarative relation of stars and question marks |
| `Glob.EarlierStarIsRedundant` | crates/ditch_ssh/src/lib.rs:259-266 | why remembering only the last star suffices: once a later star is reached, a match found by backing up to the earlier one is also found from the later one |
| `Glob.AcceptsIsExact` | crates/ditch_ssh/src/lib.rs:249-275 | without a literal star in the value, or without one in the pattern, the answer is exactly the declarative relation |
| `Glob.CorrectForAllValues` | crates/ditch_ssh/src/lib.rs:254-266 | a pattern is answered correctly for every value if and only if it has no star |
| `Glob.CorrectForAllPatterns` | crates/ditch_ssh/src/lib.rs:254-266 | a value is answered correctly for every pattern if and only if it has no literal star |
| `Glob.MissedValue` | crates/ditch_ssh/src/lib.rs:254-266 | for every pattern with a star, a value that it matches and that is missed |
| `Glob.MissedPattern` | crates/ditch_ssh/src/lib.rs:254-266 | for every value with a literal star, a pattern that matches and misses it |
| `ConfigText.SplitWords` | crates/ditch_ssh/src/lib.rs:168-202 | the loop over characters, quote and escape flags computes the words of the value, none of them empty |
| `ConfigText.WordsOfSpelling` | crates/ditch_ssh/src/lib.rs:168-202 | splitting recovers every list of non-empty words from its backslash-escaped, space-joined form |
| `ConfigText.EveryValueHasASpelling` | crates/ditch_ssh/src/lib.rs:168-202 | whatever quotes and escapes a value uses, its words survive being spelled out and split again |
| `ConfigText.WordsOfAnyWriting` | crates/ditch_ssh/src/lib.rs:168-202 | words come back whichever way each of them is written (backslashes, double quotes, single quotes without one inside) and whatever whitespace separates them |
| `ConfigText.LineReads` | crates/ditch_ssh/src/lib.rs:139-166 | a keyword, any whitespace or equals signs, and a value are read back as what they are, whatever whitespace is around them; behind a number sign nothing is read |
| `ConfigText.ConcreteIff` | crates/ditch_ssh/src/lib.rs:204-213 | an alias is concrete if and only if it is non-empty and made of ASCII letters, digits, dots, underscores and hyphens |
| `ConfigText.OwnAliasesAreConcrete` | crates/ditch_ssh/src/lib.rs:204-213 | no alias found in a file is a pattern or a negation |
| `ConfigText.IncludeLineNames` | crates/ditch_ssh/src/lib.rs:160-202 | every word without a newline can be the one word of an Include line |
| `ConfigText.IncludesAreWords` | crates/ditch_ssh/src/lib.rs:160-202 | and no others ever are |
| `ConfigPaths.ExpandInclude` | crates/ditch_ssh/src/lib.rs:214-247 | a pattern stands, from the directory of the opened name, for nothing, for one path, or for exactly the entries of one directory that match, at least of those without a literal star; where that directory is, the three rows below say |
| `ConfigPaths.IncludeFromHome` | crates/ditch_ssh/src/lib.rs:214-285 | in every file `~/a/b` stands for a/b in the home directory: for that one path, or, with a wildcard at the end, for the matching entries of the directory it is in |
| `ConfigPaths.IncludeWithoutHome` | crates/ditch_ssh/src/lib.rs:277-285 | without a home directory the tilde is a directory name like any other, beside the file |
| `ConfigPaths.IncludeBesideFile` | crates/ditch_ssh/src/lib.rs:214-230 | `a/b` stands for a/b in the directory of the file it is written in, `/a/b` for that path |
| `ConfigPaths.TildeIsHome` | crates/ditch_ssh/src/lib.rs:277-285 | a repeated leading tilde changes nothing |
| `ConfigPaths.OpenedInHome` | crates/ditch_ssh/src/lib.rs:124-129 | a file named with a leading tilde is opened in the home directory |
| `ConfigPaths.WildcardMeansMatches` | crates/ditch_ssh/src/lib.rs:231-247 | an Include with a wildcard stands for entries that match it in the usual meaning only, and for all of them whose names have no literal star |
| `ConfigPaths.NamedByItsText` | crates/ditch_ssh/src/lib.rs:214-230 | an absolute path without wildcards stands for itself wherever it is written |
| `IncludeSearch.Discovery.DiscoverFile` | crates/ditch_ssh/src/lib.rs:124-158 | the depth-first search ends on every file graph, cyclic or not, opens no file twice, and adds the aliases of exactly the files it newly visits, all of them reached; it fails only if an unreadable file is reached |
| `IncludeSearch.DiscoverHosts` | crates/ditch_ssh/src/lib.rs:111-122 | the aliases found are those of the visited files, each of them reached over names under which files were opened; when no second name of a file includes other files than its first, they are exactly those of all reachable files and the search fails exactly when an unreadable file is reachable, otherwise it fails only then |
| `IncludeSearch.WalkIsComplete` | crates/ditch_ssh/src/lib.rs:111-158 | if no second name of a file includes other files than its first, the search finds exactly the aliases of all reachable files |
| `IncludeSearch.SearchIsAlwaysCompleteIff` | crates/ditch_ssh/src/lib.rs:124-158 | whatever the files say and wherever it starts, the search can miss no file if and only if the directories of all names of a file resolve every pattern to the same other files |
| `IncludeSearch.SecondNameHidesHost` | crates/ditch_ssh/src/lib.rs:129-133 | whenever a pattern leads to one file more from the directory of a second name, text with which the search itself misses a host that is reachable |
| `IncludeSearch.NeighbourOfSecondNameHides` | crates/ditch_ssh/src/lib.rs:214-223 | so it is, for instance, with a file beside the second name that is not beside the first |
| `IncludeSearch.OneDirectoryAgrees` | crates/ditch_ssh/src/lib.rs:214-223 | a second name in the same directory, as a link beside its file, hides nothing |
| `IncludeSearch.AgreeingParentsAgree` | crates/ditch_ssh/src/lib.rs:149-154 | where the directories of all names agree, no second name includes other files, whatever the files say |
| `IncludeSearch.ReachesTransitively` | crates/ditch_ssh/src/lib.rs:149-154 | what an included file includes is included |
| `ConfigAppend.EntryMeans` | crates/ditch_ssh/src/lib.rs:607-638 | the configuration parser reads a rendered host back as exactly its alias and no Include |
| `ConfigAppend.RenderedEntry` | crates/ditch_ssh/src/lib.rs:607-638 | a host is rendered if and only if alias, host name and user are non-empty and, like an identity file that is not blank, made of their permitted characters and the port is not 0; the lines of the text then read, in order, Host with the alias, HostName with the host name, User with the user, Port with digits that read back as the port, and IdentityFile with the trimmed path exactly when one is given |
| `ConfigAppend.DecimalReadsBack` | crates/ditch_ssh/src/lib.rs:619-622 | the digits written for a port read back as the port, with no leading zero |
| `ConfigAppend.EndingTheLastLine` | crates/ditch_ssh/src/lib.rs:663-670 | adding the missing last newline changes no directive of a file, so neither its aliases nor its includes |
| `ConfigAppend.AppendedText` | crates/ditch_ssh/src/lib.rs:663-673 | appending keeps the old bytes as a prefix, adds exactly the new alias to the aliases of the file and no Include, and behind all old directives come exactly those of the new host |
| `ConfigAppend.ConfigDirectory.AppendConfigEntry` | crates/ditch_ssh/src/lib.rs:640-687 | succeeds exactly for renderable hosts whose alias is not found yet when the disk does not fail, and then the file says what it said followed by Host, HostName, User, Port and IdentityFile of the new host; wherever it fails the old text is still there, followed at most by a beginning of the addition, its backup is complete before anything is added, and no other file changes |
| `ConfigAppend.SearchAfterAppend` | crates/ditch_ssh/src/lib.rs:640-687 | the search afterwards succeeds if it did before and finds exactly one alias more than the search before found, even if an Include now lists the backup |
| `ConfigAppend.SearchOfNewConfig` | crates/ditch_ssh/src/lib.rs:662-673 | a configuration that did not exist has exactly the new alias afterwards |
| `TaskWorkflow.RevisionCountsChanges` | crates/ditch_core/src/tasks.rs:458-572 | over every history of attempted transitions the revision is the first one plus the number that succeeded |
| `TaskWorkflow.OneWinnerPerRevision` | crates/ditch_core/src/tasks.rs:418-426 | of two transitions made against one revision at most one succeeds |
| `TaskWorkflow.BoardMoves` | crates/ditch_core/src/tasks.rs:458-572 | a user's call succeeds exactly along a table of moves, with the current revision, no live agent and the words the move needs; a cancelled task can only be reopened |
| `TaskWorkflow.DoneIsUserAcceptance` | crates/ditch_core/src/tasks.rs:521-533 | a history reaches Done only by a user's acceptance, from review and with a summary, and then nothing succeeds until it leaves Done |
| `TaskWorkflow.ReviewShowsSubmittedSummary` | crates/ditch_core/src/tasks.rs:495-507 | what is in review was submitted with the very summary it shows, non-blank and within the limit |
| `TaskWorkflow.OthersOnlyMoveForward` | crates/ditch_core/src/tasks.rs:475-572 | agents and the daemon never move a task backwards, into Done, out of review, or in or out of the archive |
| `TaskWorkflow.CancelledUntilReopened` | crates/ditch_core/src/tasks.rs:534-550 | cancelled and archived go together, and only a user's reopening leads out, to where work begins |
| `TaskWorkflow.TrailLeadsHere` | crates/ditch_core/src/tasks.rs:438-572 | the audits of every history lead step by step from the column where the task was to the one where it is, one for each revision |
| `TaskWorkflow.AuditSays` | crates/ditch_core/src/tasks.rs:438-572 | the audit of a move names task, actor, action, both columns and agent, with the submitted summary, the feedback in full, or the reason shortened to its first 4096 characters |
| `TaskWorkflow.LastFeedbackIsShown` | crates/ditch_core/src/tasks.rs:508-520 | the reason shown is the feedback of the last changes requested, whatever moved the task since |
| `TaskWorkflow.MovesTouch` | crates/ditch_core/src/tasks.rs:458-572 | beyond state and revision a move changes only what it is about: the summary submitted, the reason of requested changes, archive, release and condition |
| `TaskStore.Store.SaveTaskAgentChanges` | crates/ditch_store/src/tasks.rs:280-313 | tasks, audits, links and receipt are all written or nothing is; a used request id refuses all |
| `TaskStore.Store.SaveReleaseBatch` | crates/ditch_store/src/tasks.rs:100-161 | the loop over the batch writes all rows and the receipt, or nothing as soon as one row has moved on or its release is foreign |
| `TaskStore.SaveMeans` | crates/ditch_store/src/tasks.rs:280-313 | a save commits exactly if its request id is new; it writes each of its rows and no other, appends their audits in order, links exactly the agents that exist, the last word counting, and keeps its receipt |
| `TaskStore.BatchMeans` | crates/ditch_store/src/tasks.rs:100-161 | a batch commits exactly if its release is trimmed, of 1 to 128 bytes and new by id and by name in its project, every row is one revision behind in its project with a release of that project, and its request id is new; it appends the audits in order |
| `TaskStore.Store.SetTaskSettingReceipt` | crates/ditch_store/src/tasks.rs:187-206 | a setting is set once for a request: afterwards a retry is answered with the response and sets nothing, other input under its id is a conflict, and other settings and receipts stay |
| `TaskStore.Store.DeleteDraftTask` | crates/ditch_store/src/tasks.rs:315-343 | only a first revision without agent, references or history is deleted, with its audits, together with the receipt |
| `TaskStore.DeletionMeans` | crates/ditch_store/src/tasks.rs:315-343 | a draft goes exactly if it is at its first revision, has no agent, no agent links to it, and no audit says more than that it was created; nothing of it is left and everything else is |
| `TaskStore.AuditsAreForGood` | crates/ditch_store/src/tasks.rs:315-343 | over every run an audit that disappears went with its deleted draft, and only said that it was created |
| `TaskStore.Store.TaskReplay` | crates/ditch_store/src/tasks.rs:207-247 | a known request is answered with the current rows of the tasks it reported, other input under its id with a conflict |
| `TaskStore.Store.ReconcileTasks` | crates/ditch_store/src/tasks.rs:345-380 | recovery goes row by row; whether it finishes or stops at a fault, each row is as before or recovered, and the audits are those of the recovered rows in order, all of them when it finishes |
| `TaskStore.EffectsComeWithReceipt` | crates/ditch_store/src/tasks.rs:280-313 | a request commits together with its receipt or changes nothing |
| `TaskStore.CommittedOnce` | crates/ditch_store/src/tasks.rs:34-35 | in every run with retries and restarts the effects of one request id commit at most once |
| `TaskStore.BatchIsAllOrNone` | crates/ditch_store/src/tasks.rs:123-149 | a committed batch has each of its tasks at exactly one revision higher and no other row changed; otherwise nothing changed |
| `TaskStore.ReplayIsNeverOlder` | crates/ditch_store/src/tasks.rs:207-247 | at any later moment a retry is answered with the same task at the reported or a later revision, or as deleted; other input under the id is a conflict |
| `TaskStore.RepliesIff` | crates/ditch_store/src/tasks.rs:207-247 | a request is answered from a receipt if and only if one with its id was committed before |
| `TaskStore.ReplayedBatchIsCurrent` | crates/ditch_store/src/tasks.rs:226-237 | a replayed batch shows exactly the surviving tasks of the batch, each at the reported or a later revision |
| `TaskStore.ReplayGoesTaskByTask` | crates/ditch_store/src/tasks.rs:229-236 | a replayed batch keeps the order of the batch, each task standing for its row as it is now or for nothing |
| `TaskStore.ReconcileIsIdempotent` | crates/ditch_store/src/tasks.rs:345-380 | recovering twice is recovering once |
| `TaskStore.ReconcileEndsAttemptsIff` | crates/ditch_store/src/tasks.rs:346-366 | no active attempt is left if and only if there was none or the row was stale |
| `TaskStore.ReconcileKeepsEvidence` | crates/ditch_store/src/tasks.rs:355-366 | finished attempts, all evidence of the others, submissions and waiting queue entries survive recovery; nothing gets accepted |
| `TaskStore.RecoveryMeans` | crates/ditch_store/src/tasks.rs:346-378 | exactly what was queued with an agent, running, or awaiting an approval is recovered: blocked in progress and out of review, its active attempts interrupted by the restart, with an audit by the daemon |
| `TaskStore.RecoveryResumes` | crates/ditch_store/src/tasks.rs:345-380 | however often recovery stops half way, as soon as one gets through every row is as if the first one had, at most one revision up |
| `AcceptanceRuntime.LoopRuntime.AttemptUpdate` | crates/ditchd/src/acceptance_runtime.rs:38-77 | finds the attempt by its id, refuses one that ended, merges approvals, sets the condition, and leaves the row alone if the save fails |
| `AcceptanceRuntime.LoopRuntime.Enter` | crates/ditchd/src/acceptance_runtime.rs:523-560 | a cycle that begins has a valid budget, room in the history, an id no attempt of the row has, and the row as it is now as its setup; the row is not touched |
| `AcceptanceRuntime.LoopRuntime.CaptureBase` | crates/ditchd/src/acceptance_runtime.rs:561-608 | the loop goes on only if it is not cancelled, has room, and a retry finds the workspace its failed predecessor was validated with; only a retry outside the board's queue moves to a new agent |
| `AcceptanceRuntime.LoopRuntime.QueueAttempt` | crates/ditchd/src/acceptance_runtime.rs:654-681 | exactly one attempt is appended behind the history as it was, queued, under the loop's cycle, ordinal, agent and thread and with the workspace it was captured for, and a validation takes over the summary there was; or nothing is saved and the loop gives up |
| `AcceptanceRuntime.LoopRuntime.LaunchWorker` | crates/ditchd/src/acceptance_runtime.rs:682-697 | a worker is waited for only if it was launched and the row shows task and attempt as working with every approval either side knows; all other attempts stay |
| `AcceptanceRuntime.LoopRuntime.WorkerEnded` | crates/ditchd/src/acceptance_runtime.rs:698-768 | the loop goes on with the thread and the summary of its worker and exactly the approvals that are stored for the last attempt of the row |
| `AcceptanceRuntime.LoopRuntime.MeasureWorkspace` | crates/ditchd/src/acceptance_runtime.rs:769-775 | checks begin only when the row has the captured workspace and its HEAD is the one the attempt started from |
| `AcceptanceRuntime.LoopRuntime.RunValidator` | crates/ditchd/src/acceptance_runtime.rs:788-819 | the loop goes on only with one conclusive item more in the row, behind the evidence there was and for the criterion whose turn it is |
| `AcceptanceRuntime.LoopRuntime.AcceptanceBlock` | crates/ditchd/src/acceptance_runtime.rs:78-133 | no attempt is left active and the task is blocked for the loop's reason and out of review, in one save or not at all; what was active is cancelled or blocked with that reason and the thread and summary its conversation shows; finished attempts and submissions stay |
| `AcceptanceRuntime.LoopRuntime.RotateOwner` | crates/ditchd/src/acceptance_runtime.rs:608-631 | the history stays; if the loop goes on, row and loop have the same new id, otherwise the row is as it was |
| `AcceptanceRuntime.LoopRuntime.JudgeAttempt` | crates/ditchd/src/acceptance_runtime.rs:820-919 | what goes on to submission is exactly what was undisturbed, deserves review and could be saved: it has a ground (a required check that decided, validation only, the board's queue, a coordinator with the final report, or an edition that takes the report), no required check failed, a non-blank summary, nothing moved since it was measured, and any required change; it is the row's last attempt with a conclusive item for every criterion; what is undisturbed but does not deserve review is stored as failed |
| `AcceptanceRuntime.LoopRuntime.SubmitForReview` | crates/ditchd/src/acceptance_runtime.rs:866-911 | one submission is appended that rests on a passed attempt of the row and says of it evidence, summary, approvals, workspace and the worker's agent, and the task is in review with that summary; or nothing is saved |
| `AcceptanceRuntime.LoopRuntime.ConcludeFailure` | crates/ditchd/src/acceptance_runtime.rs:920-956 | a retry follows only an attempt that warrants one, within the budget, without an approval the loop knew of; it expects that attempt's workspace, remembers its failure, and resumes its thread exactly if the policy or the board's queue asks for that |
| `AcceptanceVerdict.JudgedIff` | crates/ditchd/src/acceptance_runtime.rs:820-919 | one judgement, without any of the code's own tests: submitted exactly if undisturbed, deserving review and saved, failed exactly if undisturbed, not deserving it and saved, and otherwise given up with nothing saved |
| `AcceptanceVerdict.FailureNotesAre` | crates/ditchd/src/acceptance_runtime.rs:829-839 | the failure that a retry is told consists of the notes of the failed required checks, all of them and no others, in their order |
| `AcceptanceVerdict.GivesUpIff` | crates/ditchd/src/acceptance_runtime.rs:523-956 | whatever the section, a loop gives up if and only if it has one of the reasons listed for that section, and then with a code whose reason holds |
| `AcceptanceRequests.RequestsAreGrantedIff` | crates/ditchd/src/acceptance_runtime.rs:320-450 | what each request (configure, ask for changes, revalidate or submit by hand, start, enqueue, move) needs, as an if and only if over the stored state, and the whole task and launch that it leaves |
| `AcceptanceRequests.LaunchesBeginIff` | crates/ditchd/src/acceptance_runtime.rs:452-512 | a launch begins its loop if and only if the workspace is free and the task in progress; otherwise the task is blocked as busy with no attempt left active, if that can be saved |
| `AcceptanceRequests.PreparedIff` | crates/ditchd/src/acceptance_runtime.rs:1253-1273 | an acceptance is prepared if and only if the task is in review with a summary and its current submission has the fingerprint of the workspace as it is now; it changes nothing but the state |
| `AcceptanceRequests.ReportsMean` | crates/ditchd/src/task_runtime.rs:381-470 | an agent's report submits a live task in progress with its summary or shows a new condition, exactly when the task is its own and in progress; queued and cancelled are never taken over |
| `AcceptanceInvariant.InvariantAlways` | crates/ditchd/src/acceptance_runtime.rs:513-959 | the invariants of history, loop, row and accepts in flight hold in every reachable state |
| `AcceptanceInvariant.RevisionsGrow` | crates/ditch_core/src/tasks.rs:434-437 | every step either leaves the row as it is or counts its revision up |
| `AcceptanceHistory.LoopsRunUndisturbed` | crates/ditchd/src/task_runtime.rs:363-400 | while a loop lives, requests, launches, accepts and agents change neither its configuration nor its variables nor anything of its row but approvals, the reason shown and the revision; the one exception is a report of the agent the row still names when the loop has given up under another id |
| `AcceptanceHistory.PartedWasRotated` | crates/ditchd/src/acceptance_runtime.rs:608-631 | a loop gives up under an id its row does not have only after a rotation that moved the lease but could not be saved |
| `AcceptanceHistory.OldAgentOvertakes` | crates/ditchd/src/task_runtime.rs:381-470 | after any such rotation the old agent can put the task into review; the loop's next save blocks it again |
| `AcceptanceHistory.AttemptChain` | crates/ditchd/src/acceptance_runtime.rs:535-681 | the attempts of a cycle are stored one after the other with ordinals 1, 2, ... up to the budget; each but the last failed in a way that warrants a retry (all checks done, HEAD unchanged, a required change made, a required check failed unless a coordinator waits for a report, not the failure before if the policy stops on that); each started from the workspace its predecessor was validated with, which carries no approval if and only if none came late |
| `AcceptanceHistory.LateIff` | crates/ditchd/src/acceptance_runtime.rs:751-772 | late approvals are exactly those saved while the loop already measures or checks that attempt |
| `AcceptanceExamples.ApprovedAttemptIsRetried` | crates/ditchd/src/remote_app_server_runtime.rs:876-899 | a run in which an approved attempt is retried |
| `AcceptanceHistory.SuccessIsSubmission` | crates/ditchd/src/acceptance_runtime.rs:860-911 | a cycle ends well exactly when one submission is appended and the task moves into review; nothing else touches submissions |
| `AcceptanceHistory.SubmissionsAreGrounded` | crates/ditchd/src/acceptance_runtime.rs:776-911 | every stored submission rests on a passed attempt of its own evidence: one conclusive item per criterion in order, no required one failed, an unchanged HEAD, the fingerprint of the attempt, a non-blank summary |
| `AcceptanceHistory.VerdictIff` | crates/ditchd/src/acceptance_runtime.rs:820-919 | in every run each judgement goes the way of the rule, both directions |
| `AcceptanceHistory.SubmissionsHadGround` | crates/ditchd/src/acceptance_runtime.rs:860-911 | every submission of every run was judged at some moment at which it had a ground, deserved review and nothing had moved since it was measured, and it reports exactly the attempt judged then: evidence, summary, approvals, workspace and agent |
| `AcceptanceHistory.BlockedForAReason` | crates/ditchd/src/acceptance_runtime.rs:78-133 | the reason a loop leaves in its blocked task was true of the row, the loop or the answer it got when it gave up |
| `AcceptanceHistory.CyclesGoByTheirTask` | crates/ditchd/src/acceptance_runtime.rs:523-560 | every cycle goes by the task as it was when the cycle began: the configured criteria followed by one required human criterion for each plain one, the policy, and as many attempts as the policy grants, one for validation only |
| `AcceptanceHistory.SubmissionWasCurrentTwice` | crates/ditchd/src/acceptance_runtime.rs:770-824 | the fingerprint submitted was that of the workspace both when the attempt was measured and when it was judged |
| `AcceptanceHistory.HistoryOnlyGrows` | crates/ditchd/src/acceptance_runtime.rs:38-133 | over any stretch of a run finished attempts never change, approvals are never lost, submissions are only appended, and both lists stay within 50 |
| `AcceptanceHistory.OneActiveAttemptIff` | crates/ditchd/src/acceptance_runtime.rs:78-133 | all along a run at most one attempt is active, the last, and only while its loop is there to end it, if and only if no loop ended without saving that the task is blocked while an attempt was active |
| `AcceptanceHistory.OutOfHandIff` | crates/ditchd/src/acceptance_runtime.rs:78-133 | from any state of a run in which no active attempt is out of hand, a step leads to one in which one is if and only if it loses the blocking save while an attempt is active |
| `AcceptanceHistory.RestartEndsAttempts` | crates/ditch_store/src/tasks.rs:345-380 | a restart leaves an attempt active if and only if one was and the row was not stale, and none when none was out of hand |
| `AcceptanceExamples.LostBlockLeavesAttemptActive` | crates/ditchd/src/acceptance_runtime.rs:130-132 | a run in which an attempt stays active across a restart after such a failed save |
| `AcceptanceHistory.DoneIsAccepted` | crates/ditchd/src/acceptance_runtime.rs:348-357 | a task becomes Done only by committing a user's accept, alone or in a batch: it was read in review, the workspace captured after that had the fingerprint of the task's own current submission, and nothing about the task changed from the reading to the commit |
| `AcceptanceHistory.LoopNeverAccepts` | crates/ditchd/src/acceptance_runtime.rs:78-133 | loop, block, restart, requests and agent events never make a task Done |
| `AcceptanceHistory.CancelStopsRetries` | crates/ditchd/src/acceptance_runtime.rs:561-600 | once a cancelled or denied loop is past dispatch it never stores another attempt |
| `AcceptanceHistory.DenialStopsRetries` | crates/ditchd/src/remote_app_server_runtime.rs:879-884 | after a denied approval the loop never stores another attempt, whether or not the denial could be saved, unless it was past dispatch already |
| `AcceptanceHistory.RevalidationNeedsProgress` | crates/ditchd/src/task_runtime.rs:148-174 | a launch for revalidation begins if and only if the task was in progress and its workspace is free; asked for in review it always blocks |
| `Leases.RuntimeState.Acquire` | crates/ditchd/src/task_runtime.rs:103-186 | whoever is not refused holds a lease that conflicts with nobody's, a refusal changes nothing; a loop's agent is refused a direct prompt and otherwise goes on under the lease it has, everybody else gets a new one exactly if neither memory, table, running children nor the rest of the daemon object; memory, table and owners stay in agreement |
| `Leases.RuntimeState.ReleaseWriter` | crates/ditchd/src/task_runtime.rs:311-350 | no live loop's lease and nobody else's is taken; a lease is kept exactly if it is an owner's, has running processes, or could not be freed, and running processes are noted as orphans; memory and table stay in agreement |
| `Leases.RuntimeState.RegisterLoop` | crates/ditchd/src/acceptance_runtime.rs:469-486 | an agent that owned no loop owns exactly this one afterwards, with its leases as they were, and owners, waiters and controls stay in agreement |
| `Leases.RuntimeState.RotateOwner` | crates/ditchd/src/acceptance_runtime.rs:608-627 | lease, reservation, ownership and waiter move together to the new id, exactly if the table could be written and the loop holds its lease; nothing is left under the old id, no other agent or loop is touched, and a loop that holds its lease loses it on no path |
| `Leases.RuntimeState.EndLoop` | crates/ditchd/src/acceptance_runtime.rs:503-508 | the loop's agent is neither owner nor waiter any more, keeps a lease exactly if its processes still run or the table could not be changed, nobody else is touched, and memory, table and owners stay in agreement |
| `Leases.LoopsOwnTheirLease` | crates/ditchd/src/acceptance_runtime.rs:462-508 | in every run the owner of a live loop is owner and waiter, belongs to no other loop and holds lease and reservation; only until the loop has launched a worker can they be gone, if they were released while it was beginning |
| `Leases.OneWriterPerGroup` | crates/ditch_core/src/tasks.rs:586-591 | a coordinator group never holds two leases for one workspace |
| `Leases.LeaseIsNeverLost` | crates/ditchd/src/acceptance_runtime.rs:608-618 | the branch for a lost lease is unreachable: a loop moves to a new id only after a worker was launched for the old one, and then it holds its lease; the move comes off exactly when the table could be written |
| `Leases.StagesFollowTheLoop` | crates/ditchd/src/acceptance_runtime.rs:608-697 | how far a loop is with its workers follows what happened to it: a refused or failed launch and a rotation that does not come off end it, a worker that starts launches it, a rotation moves it, nobody else touches it |
| `Leases.FirstWorkerRestoresTheLease` | crates/ditchd/src/remote_app_server_runtime.rs:134-138 | after the launch of a worker its loop holds a lease, or it never had a worker and ends |
| `Leases.MissingLeaseWasReleasedEarly` | crates/ditchd/src/acceptance_runtime.rs:462-486 | a live loop without its lease has launched no worker and lost the lease to a release between reserving and registering |
| `Leases.LeaselessLoopMeetsAWriter` | crates/ditchd/src/runtime_shared.rs:601-605 | a run in which that happens and another writer of the group then gets the workspace |
| `Leases.RotationMovesEverything` | crates/ditchd/src/acceptance_runtime.rs:608-627 | a rotation leaves nothing under the old id, has everything under the new one, and changes no other agent and no other loop; it does so exactly when the table could be written |
| `Leases.EndFreesTheOwner` | crates/ditchd/src/acceptance_runtime.rs:503-508 | after the thread its id is neither owner nor waiter nor any loop's, and keeps a lease exactly when its processes still run or the table could not be changed; nobody else is touched |
| `Leases.NothingIsLeftBehind` | crates/ditchd/src/acceptance_runtime.rs:503-508 | after the thread none of the ids its loop ever had is left, those it moved away from included, unless somebody else took it since, or it is the last one and its processes still run or the table could not be changed |
| `Leases.LeftoverIsReaped` | crates/ditchd/src/task_runtime.rs:351-361 | what an ended loop left behind stays nobody's and goes with the first release after its processes are gone, however much later, unless somebody else took the id |
| `CloneOperation.Operation.CancelProjectClone` | crates/ditchd/src/project_clone.rs:128-132 | a final operation is left alone, any other is marked and keeps its phase and its worker |
| `CloneOperation.Operation.RetryProjectCloneRegistration` | crates/ditchd/src/project_clone.rs:133-145 | starts one worker again for a final, not completed operation with a checkout, and only then; keeps checkout, identity and directory |
| `CloneOperation.Operation.ReserveDestination` | crates/ditchd/src/project_clone.rs:285-308 | a directory is reserved exactly where nothing was, for an operation that is not cancelled and may write there; whatever was on the disk stays |
| `CloneOperation.Operation.GitFinished` | crates/ditchd/src/project_clone.rs:474-540 | git's answer is the only way on: the clone goes to its checkout if it succeeded and fails otherwise, the verification keeps it as its verdict, and nothing else changes |
| `CloneOperation.Operation.CheckoutFinished` | crates/ditchd/src/project_clone.rs:314-331 | a checkout is ready if and only if it is in the directory that was reserved, still there, and in order, and only then has an identity |
| `CloneOperation.Operation.CleanUpFailedCheckout` | crates/ditchd/src/project_clone.rs:251-278 | the round ends; the reserved directory, still the same and not behind a link, goes if it can be removed, and no other can |
| `CloneOperation.Operation.FinishRegistration` | crates/ditchd/src/project_clone.rs:558-591 | the round completes if and only if it was not cancelled, the verifying git run succeeded, the directory is still the reserved one, and neither its contents nor the registration are at fault; registered is exactly the identity of what is completed |
| `CloneOperation.OneWorkerWhileRunning` | crates/ditchd/src/project_clone.rs:109-145 | in every interleaving an operation has a worker exactly while its phase is not final, and a retry never starts a second one |
| `CloneOperation.CompletedIsFinal` | crates/ditchd/src/project_clone.rs:128-145 | a completed operation never changes again |
| `CloneOperation.ReadyNeverReverts` | crates/ditchd/src/project_clone.rs:314-331 | a ready checkout, its identity and its directory stay |
| `CloneOperation.CancelDecidesTheRound` | crates/ditchd/src/project_clone.rs:558-566 | a cancel that lands before the end of a round ends it cancelled with nothing registered |
| `CloneOperation.CompletedWasVerified` | crates/ditchd/src/project_clone.rs:558-591 | in every run whatever is completed was finished, uncancelled and in its own directory, right after its last verifying git run, which succeeded |
| `CloneOperation.ReadyMeansGitSucceeded` | crates/ditchd/src/project_clone.rs:308-331 | in every run a ready checkout comes from a git run that succeeded and was found in the directory reserved for it, under the identity made then |
| `CloneOperation.UndisturbedRound` | crates/ditchd/src/project_clone.rs:543-591 | left alone, a round of verification completes if and only if git succeeds, also after a retry |
| `CloneOperation.UndisturbedCloneCompletes` | crates/ditchd/src/project_clone.rs:245-334 | left alone, with git succeeding twice, a new clone completes in a directory made for it, and nothing else on the disk or in the registry changes |
| `CloneOperation.FailedCloneLeavesNothing` | crates/ditchd/src/project_clone.rs:245-278 | a clone whose git run fails ends failed with the disk as it was |
| `CloneOperation.OnlyOwnDirectoryIsRemoved` | crates/ditchd/src/project_clone.rs:254-265 | the only directory ever removed was created exclusively by the same operation, is still at its path with its inode, and belongs to an operation whose checkout never succeeds |
| `CloneOperation.CreationWasExclusive` | crates/ditchd/src/project_clone.rs:293-306 | every directory on record was created by its operation where nothing was before, with an inode never seen |
| `CloneOperation.OtherDirectoriesAreSafe` | crates/ditchd/src/project_clone.rs:245-334 | over any stretch without outside changes no directory that the daemon did not make, and none with a ready checkout, disappears or changes |
| `CloneOperation.RegistrationsAreDistinct` | crates/ditchd/src/project_clone.rs:325-329 | two operations never register the same project identity |
| `Publish.TaskPublication.BeginPublication` | crates/ditchd/src/github_publish.rs:49-100 | what a call may send is what is stored and has the contents it was called with, what was stored stays, an issue handed out is the saved result, and it is refused exactly for other contents and done exactly for a linked task without a publication |
| `Publish.RetriesKeepTheRequest` | crates/ditchd/src/github_publish.rs:71-128 | retries under new request ids send the saved request or are refused for other contents; once a result was saved they get it, and a refused type forgets nothing any more |
| `Publish.TaskPublication.ForgetRejectedType` | crates/ditchd/src/github_publish.rs:115-128 | the publication is kept if and only if it has a result, and then unchanged |
| `Publish.TaskPublication.SaveResult` | crates/ditchd/src/github_publish.rs:142-154 | the request keeps its contents and gets its result, and nothing is made up for one that is gone |
| `Publish.AtMostOneIssue` | crates/ditchd/src/github_publish.rs:47-132 | while publications are only forgotten safely, every request sent is the saved one, or the task is linked, and at most one issue is made, whatever is retried, lost or crashes |
| `Publish.OneCallAtATime` | crates/ditchd/src/github_publish.rs:47-132 | at most one issue is made if no call begins while the request of another is open |
| `Publish.NoRequestAfterResult` | crates/ditchd/src/github_publish.rs:71-103 | a call that begins after a result was saved never sends a request |
| `Publish.RetryFinishes` | crates/ditchd/src/github_publish.rs:49-190 | whatever was lost before, a call with the saved contents under any request id can be carried through to the end: the saved request is sent and the task linked to the one issue of that request, the one the relay made already or else the one it makes now |
| `Publish.UnsafeForgettingDuplicates` | crates/ditchd/src/github_publish.rs:115-128 | the condition is exact: after any unsafe forgetting there is a way on to two issues |
| `Publish.UnsafeForgettingHappens` | crates/ditchd/src/github_publish.rs:115-128 | a run with an unsafe forgetting: the reply to the first request was given up while it was still under way |
| `Import.IssueBoard.ImportIssues` | crates/ditchd/src/github.rs:455-602 | the loop over the issues and the one transaction after it compute the specified board and answer, on every error path as well |
| `Import.IssueBoard.AttachSource` | crates/ditchd/src/github_publish.rs:197-272 | rows and tasks keep corresponding; each refusal has its reason, and success links the one task to the issue, one revision up, or changes nothing if it was linked already |
| `Import.LinkedOnce` | crates/ditchd/src/github_publish.rs:207-240 | a task is linked once: attaching the same issue again is fine and changes nothing, another issue or repository is refused, and no other task gets the issue |
| `Import.ImportIsExact` | crates/ditchd/src/github.rs:497-602 | an import reports one task for each distinct issue in the order first seen, which is the task its row names afterwards: the one it had, which keeps title, content, revision and place, or a new one with the trimmed title and the body of the issue |
| `Import.ImportFailsIff` | crates/ditchd/src/github.rs:497-602 | an import under a new receipt fails if and only if the first mention of some issue is unknown and has no title or is too long, or the save fails; then nothing changes, and a linked task is never missing |
| `Import.OneTaskPerIssue` | crates/ditchd/src/github.rs:378-385 | after any sequence of imports, publications and edits a task carries an issue if and only if the one row of that issue names it |
| `Import.RowsAreForever` | crates/ditchd/src/github.rs:574-590 | an issue never moves to another task |
| `Import.KeysRiseIff` | crates/ditchd/src/github.rs:546-551 | the new order keys are distinct and above all old ones if and only if they do not saturate before the last |
| `Import.RepeatedImports` | crates/ditchd/src/github.rs:470-496 | a repeated import, under its request id or without one, in any order and with duplicates, is answered from its receipt, other issues under its id are refused; neither changes anything |
| `TurnProtocol.TurnEventGate.AcceptMessage` | crates/ditchd/src/codex_app_server.rs:470-520 | the gate opens once, names its thread and turn from the responses, and admits a notification exactly if it names no other thread and no other turn and there is a thread for what belongs to a turn |
| `TurnProtocol.ActiveTurn.ReceiveMessage` | crates/ditchd/src/codex_app_server.rs:379-444 | at most one message is written for one received; a turn is started exactly by the first thread response, without error, after a verified launch, and on its thread; requests go away only when the server settles them |
| `TurnProtocol.ActiveTurn.HandleLine` | crates/ditchd/src/codex_app_server.rs:661-860 | a table of methods: which settle requests, which go away exactly then, which ask for a decision, permissions or answers and are queued as that once, which are ignored, and which are answered with an error |
| `TurnProtocol.ActiveTurn.QueueRequest` | crates/ditchd/src/codex_app_server.rs:887-955 | afterwards the server's request is pending, once, and every other is as it was |
| `TurnProtocol.ActiveTurn.RespondTo` | crates/ditchd/src/codex_app_server.rs:159-193 | the decision itself is written for a request that asks for one; for permissions none are granted if and only if it is a denial, otherwise those requested, for the session if and only if it says so; nothing is written for a request that expired, asks a question or was answered before, and no other request is touched |
| `TurnProtocol.ActiveTurn.SendApprovalResponse` | crates/ditchd/src/codex_app_server.rs:195-214 | success means that the response kept is this one; it is written, under the request's own id, exactly if there was none |
| `TurnProtocol.ActiveTurn.AnswerQuestions` | crates/ditchd/src/codex_app_server.rs:104-147 | answers are taken exactly if they answer each question of a pending request, with 1 to 20 texts of at most 20000 bytes each; they are written only the first time, and no other request is touched |
| `TurnProtocol.TurnStartsOnce` | crates/ditchd/src/codex_app_server.rs:569-648 | in every run at most one turn is started, by the first thread response and on its thread |
| `TurnProtocol.ThreadIsSetOnce` | crates/ditchd/src/codex_app_server.rs:471-483 | after the first thread response the thread of the gate never changes |
| `TurnProtocol.AcceptedNotificationsNameTheThread` | crates/ditchd/src/codex_app_server.rs:500-505 | an accepted notification that names a thread names the one the rest of the run stays on |
| `TurnProtocol.AcceptedNotificationsNameTheTurn` | crates/ditchd/src/codex_app_server.rs:506-517 | from a named turn on, until another turn response or the start of an unnamed turn is admitted, an accepted notification names that turn or none |
| `TurnProtocol.RequestsArePendingOnce` | crates/ditchd/src/codex_app_server.rs:887-912 | a server request is pending at most once however often it is repeated |
| `TurnProtocol.RequestsAreAnsweredOnce` | crates/ditchd/src/codex_app_server.rs:195-214 | at most one result is written for a request, under the id the server asked with |
| `TurnProtocol.ResultsAreTheUsersOwn` | crates/ditchd/src/codex_app_server.rs:104-214 | in every run every result written is one user step's own decision, the permissions asked for or none, or the complete answers, under the id of a request that was pending and unanswered |
| `TurnProtocol.DecisionsAreWritten` | crates/ditchd/src/codex_app_server.rs:159-214 | each decision on a request that waits for one is written at once |
| `TurnProtocol.DecisionsAreFinal` | crates/ditchd/src/codex_app_server.rs:159-214 | after a decision every later one writes nothing: exactly the same is confirmed, another refused, and after the server settled the request it has expired |
| `TurnProtocol.AnswersAreFinal` | crates/ditchd/src/codex_app_server.rs:104-147 | the same for answered questions, where exactly the same answers are confirmed |
| `TurnProtocol.PendingEvolves` | crates/ditchd/src/codex_app_server.rs:662-741 | a pending request keeps its id and kind, gets one response, and goes away only when the server resolves it or completes its item |
| `Pagination.Transcript.AppendMessage` | crates/ditch_store/src/lib.rs:410-421 | appends under the next number, and fails exactly when there is none |
| `Pagination.Transcript.PersistFailedAgent` | crates/ditch_store/src/lib.rs:503-515 | both messages are appended under the next numbers, or neither where those do not fit |
| `Pagination.Transcript.ListAgentMessages` | crates/ditch_store/src/lib.rs:447-488 | truncating and reversing in place gives the newest rows below the cursor, oldest first, as many as asked for between 1 and 200, with a cursor exactly if older ones are left |
| `Pagination.Transcript.AgentMessagesAfter` | crates/ditch_store/src/lib.rs:424-446 | the next rows above a bound, at most 200, the number of the last of them, and whether more are left |
| `Pagination.FollowBackIsTranscript` | crates/ditch_store/src/lib.rs:447-488 | following the backward cursors ends and gives the transcript of the first call without gap or duplicate, for every limit, holes in the numbers and appends in between, if and only if no row has the greatest number |
| `Pagination.FollowForwardIsComplete` | crates/ditchd/src/runtime_shared.rs:1648-1660 | rejoining page by page from any number until nothing more is reported gives everything after it, late appends included |
| `Snapshot.Hasher.HashFiles` | crates/ditchd/src/acceptance_evidence.rs:253-333 | feeding names, modes and contents piece by piece yields the specified stream of the sorted names; it succeeds exactly when there are not too many, all lie inside the project and none fails, runs out of time or changes meanwhile, and otherwise fails as the first one in order does |
| `Snapshot.StreamFormat` | crates/ditchd/src/acceptance_evidence.rs:260-305 | the bytes themselves: the length of a name in eight bytes, lowest first, the name, then a mode in four bytes, a size in eight and the content, or "symlink" and a target, or a fingerprint, or "missing" |
| `Snapshot.ContainedIff` | crates/ditch_core/src/acceptance.rs:139-153 | a listed path is accepted if and only if it is relative, of 1 to 1024 bytes, has no component that goes up, and no backslash, zero byte or line end |
| `Snapshot.EnumerationOrderIsIrrelevant` | crates/ditchd/src/acceptance_evidence.rs:253-262 | the stream depends on the set of paths only |
| `Snapshot.EncodeIsInjective` | crates/ditchd/src/acceptance_evidence.rs:263-333 | the stream is uniquely decodable into the sorted names and their entries |
| `Snapshot.TargetIsDelimited` | crates/ditchd/src/acceptance_evidence.rs:272-290 | a link target has no length field and yet can end at one place only |
| `Snapshot.StreamDeterminesTree` | crates/ditchd/src/acceptance_evidence.rs:232-333 | however two trees were enumerated, their streams are equal if and only if the trees are |

## Left out

- Leases.LoopsOwnTheirLease: says nothing about the lease of a loop that has launched no worker and lost its lease while it was beginning, because the code then runs on without one.
- AcceptanceHistory.LoopsRunUndisturbed: excepts reports of an agent the loop has left without being able to save that, because the code lets them through.
- AcceptanceHistory.AttemptChain: allows approvals on a retried attempt that were saved after the loop had copied them, because the code does.
- AcceptanceHistory.DoneIsAccepted: a field outside the model, the GitHub source, may change without a new revision between reading and commit.
- AcceptanceRequests.RequestsAreGrantedIff: leaves out whether the commands of a configuration were confirmed and are approved presets of the project.
- Publish.AtMostOneIssue: requires that publications are only forgotten safely, because the code can otherwise make a second issue.
- IncludeSearch.SearchIsAlwaysCompleteIff: is about file systems whose files have absolute paths without a newline and without wildcards in the last component, so that every one can be named in a configuration file.
- Pagination.Transcript.PersistFailedAgent: where the numbers do not fit the code panics or wraps around, depending on how it was built; the model stores nothing, as after a panic.
- TurnProtocol.ActiveTurn.ReceiveMessage: leaves out messages whose method is not a string, interrupts and the 30-second confirmation limit; write failures count as written, as in the code, which never repeats them.
- ConfigAppend.ConfigDirectory.AppendConfigEntry: where a second name of a file includes other files, success is not determined by what is reachable; creating the directory and setting permissions show only as failures.
- ConfigAppend.SearchAfterAppend: requires that afterwards the directories of all names of a file agree and the backup lies beside the configuration, so that no second name hides a file.
- Snapshot.EncodeIsInjective: requires names and link targets without zero bytes, as every Unix file system does.
- Snapshot.StreamDeterminesTree: is about names as listed, which are lossy where a name is not UTF-8; sorting and removing duplicates are library calls and stand as functions.
- CloneOperation.OnlyOwnDirectoryIsRemoved: the check of ownership and the removal are one step; a replacement between the two system calls is not modelled.
- Overflow of the task revision at 64 bits is not modelled.
- Timestamps, titles, priorities, skills, plans, attention events and broadcast order are not part of the task model.
- The order keys of the board and their rebalancing on a move (crates/ditchd/src/task_runtime.rs:960-1015), except for imports.
- Remote projects: forwarding of requests, projections and their reservations.
- Board queue positions, pausing and agent selection; claiming and waiting are modelled as far as they start loops.
- Validators, worker processes, Git and the App Server process: their outcomes are arbitrary.
- Redaction, URL and path checks, size limits of prompts and evidence beyond their effect of stopping a loop or failing a save.
- Reconciling agent runs after a restart, attention events and permission rows of the store.
- Sign-in, the relay client, the GitHub CLI installer, identity, upgrades and the command line.
