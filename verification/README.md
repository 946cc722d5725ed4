# Verified model of the ProvenArch control plane

The Dafny files here model the parts of the repository whose correctness rests on how
operations interact, and prove what they promise for every input, run or reachable state.

- **Task history.** `TaskHistory` gives the records, the validation every published history
  passes and each mutation as a function, and `HistoryEffects` what each changes, field by field;
  `HistoryDraft` is the same code in place, with the registry that publishes an update only
  when it validates and is durable. `Admission` decides start, retry and rerun requests, and
  `AdmissionTable` reads its answers off the request's own texts. `Protocol` is the step machine around them:
  requests holding the admission lease, orchestrator runs, watcher ticks between a read, a
  decision and a write, failed registry writes, shutdown, crash and restart.
  `ProtocolInvariant` proves that every step keeps one invariant; `ProtocolRuns` and
  `ProtocolResults` say what that means over whole runs; `AttemptServer` shows that the
  handlers' own code takes only such steps, and with `ServerEffects` what each pass through
  it leaves behind. `Acceptance` and `EditAcceptance` say which updates validation lets
  through; `Rollback` proves that it never stops a rollback, and what a rollback does to a
  client paging through the task list.
- **Publication journal.** `Publication` models the prepare record, the Git state, the
  handlers as they stand at each crash point, and restart reconciliation, which sees only
  the Git state; `PublicationProof` proves what restarts recover and what they never do.
- **Fallback YAML.** `PythonText`, `PythonLiteral`, `Yaml` and `YamlParser` model the loader;
  `YamlPrinter`, `YamlRoundTrip` and `ReposFile` prove that it reads back what is written,
  in any layout and spelling it supports.
- **Git output.** `Hunks` and `Porcelain` model the diff and status parsers.
- **Pagination, Audit, AuditScan, ShutdownGate** model the task list, the bounded auditor
  and the watcher gate; `AuditWitness` holds runs, as the readers accept
  them, that meet the auditor's documented failures.

`Wrappers` and `Text` hold shared types and Go string functions.

## Assumptions

- A registry update is atomic. Whether its file write succeeds is an input of the step.
- A run moves from queued to running to a terminal status and then stays as it is; it
  carries a finish time exactly when it is terminal. A run may be forgotten at any time.
- Generated ids are fresh and unique. The clock never goes back and is an input.
- SHA-256 is injective: a digest is the content it was computed from. The journal's JSON and
  base64 encodings are lossless, as are the list cursor's.
- One registry serves one process life; a crash loses the handler and the watchers and
  keeps the history, the runs and the journal.

## Where the code and the documentation differ

The model follows the code.

- The Task document, in its section on admission, says a repeated token returns the same
  Attempt. It does exactly while a workspace and a runner are selected, the history is
  loaded, the workspace manifest names the task's repositories, and the task is open at the
  admitted revision (`Admission.ReplayIsExact`). Otherwise it is refused: by a server
  restarted without a runner (`Admission.UnselectedRefusesReplay`), or after a manifest edit
  that never touched the task (`Admission.LostScopeRefusesReplay`). It is never admitted twice.
- The same document, on the Attempt's public shape, says an Attempt follows its run while the run is retained.
  Validation wants `archived_at` no earlier than the last activity, so archiving a task under
  a live attempt freezes the attempt until the task is archived or unarchived again, and
  blocks every start meanwhile (`ProtocolResults.ArchivedAttemptFreezes`).
- The API document, on contextual Git mutations, says either ordering stays recoverable and no other run
  is silently attached. A commit whose message Git rewrote and a fallback checkout are not
  recovered (`CommitRecoveredExactly`, `BranchRecoveredExactly`); a branch request that names
  the current branch is linked without a Git move (`BranchAlreadyCurrent`); of two equal
  commit intents the earlier one is linked (`EarlierTwinWins`); and an intent prepared on a
  repository without commits makes the journal unreadable for good (`PrepareKeepsReadable`,
  `UnreadableForGood`).
- The Task document, on the public API surface, calls pagination stable. It is while activity only grows
  (`Pagination.NothingListedTwice`); an aborted admission sets activity back, and a task a
  client has already seen is listed again exactly when its reset key falls past the cursor
  (`Rollback.RollbackRelistsExactly`, and `Rollback.RollbackListsTwice` for a case).
- `internal/artifactaudit/audit.go` caps issues at 200; the public surface can return 201
  (`AuditScan.PublicFailsClosed`, `AuditWitness.OneIssueTooMany`), and a passing report can
  leave out the very verdict it rests on (`AuditScan.EffectiveVerdictCanGoUnlisted`,
  `AuditWitness.UnlistedVerdict`).
- The decision record on validation, audit and verdict authority says the effective verdict
  owns the final PASS or FAIL. The public audit reads its paths and never its status, so a
  failed effective verdict over a sound run is shown as a pass
  (`AuditScan.EffectiveStatusIsIgnored`, `AuditWitness.FailedVerdictPasses`).

## Model

| member | source | states |
|---|---|---|
| `HistoryDraft.Draft.AppendAttempt` | internal/api/task_attempts.go:848-861 | the in-place append leaves exactly the candidate with the attempt last, its summary last under its task, activity set; an existing id or a missing task is refused with nothing changed |
| `HistoryDraft.Draft.RemoveAttempt` | internal/api/task_attempts.go:863-887 | the splice and the in-place summary filter leave exactly the history without the attempt and its summaries, activity reset to the given time |
| `HistoryDraft.Draft.MirrorIntoTask` | internal/api/task_attempts.go:911-930 | the inner loop rewrites every summary of the attempt in one task, and its activity and outcome, and nothing else |
| `HistoryDraft.Draft.MirrorRun` | internal/api/task_attempts.go:889-932 | the nested loops of a run update leave the first attempt with that run and id mirrored, and every task told about it |
| `HistoryDraft.Draft.MarkUnavailable` | internal/api/task_attempts.go:453-489 | restart marking fails the named attempt and the first summary of it in its task, and returns there |
| `HistoryDraft.Draft.PatchTask` | internal/api/tasks.go:249-281 | a patch at the expected revision changes only the named task: its present fields, revision plus one, both times; a wrong revision or an empty patch changes nothing |
| `HistoryDraft.Draft.SetArchived` | internal/api/tasks.go:310-332 | archiving and unarchiving at the expected revision change only the named task, its lifecycle, archive time, revision and times |
| `HistoryDraft.Draft.LinkPublication` | internal/api/task_publication.go:314-333 | the publication lands on the joined task and attempt only, and is refused whole when the join or the publication does not match |
| `HistoryDraft.Registry.Update` | internal/tasks/registry.go:109-128 | an update is published exactly when the mutator accepts, the whole candidate validates and the file is written; otherwise the snapshot is untouched |
| `HistoryDraft.Registry.NeedsUpdate` | internal/api/task_attempts.go:491-506 | the loop decides for the first attempt of the run whether it still has to be mirrored |
| `HistoryInvariants.AdvanceKeepsCoherent` | internal/api/task_attempts.go:889-932 | mirroring or marking an attempt keeps the two views, the named outcomes, lineage, key use, the single queue slot and the intent log |
| `HistoryInvariants.EditKeepsCoherent` | internal/api/tasks.go:249-281 | an edit, archive or publication of one task keeps them |
| `HistoryInvariants.CreateKeepsCoherent` | internal/api/tasks.go:92-137 | so does a new task |
| `HistoryInvariants.AppendKeepsCoherent` | internal/api/task_attempts.go:848-861 | so does appending an admissible attempt: the one root or a child of a fitting terminal parent, a new key, an empty queue slot |
| `HistoryInvariants.RemoveKeepsCoherent` | internal/api/task_attempts.go:863-887 | so does taking the last attempt back |
| `HistoryEffects.PatchEffect` | internal/api/tasks.go:249-281 | a patch is accepted exactly at the task's revision with a field to change; each field it names takes its value, every other field stays, and the revision and the two times move |
| `HistoryEffects.ArchiveEffect` | internal/api/tasks.go:310-332 | archiving sets the lifecycle and the archive time and unarchiving clears them, with the revision and the two times, and nothing else |
| `HistoryEffects.AppendEffect` | internal/api/task_attempts.go:848-861 | the attempt is last in the history and its task lists it last, field by field; refused exactly for a missing task or an id the task already has |
| `HistoryEffects.MirrorEffect` | internal/api/task_attempts.go:889-950 | in a history as validated a run's report gives its attempt the run's own status, start, end, error and outcome, and its task the same in its summary; a task without an outcome has that run's afterwards if and only if the run succeeded |
| `HistoryEffects.NeedsExactly` | internal/api/task_attempts.go:491-506 | an attempt needs no update exactly when it has the run's status, a start if the run is running, and its end |
| `HistoryEffects.MarkEffect` | internal/api/task_attempts.go:453-489 | an attempt whose run is gone has failed, now, with the restart code and no outcome, in both views |
| `HistoryEffects.LinkEffect` | internal/api/task_publication.go:304-340 | a publication lands on the joined task and attempt if and only if it names them |
| `HistoryEffects.JoinedExactly` | internal/api/task_publication.go:44-77 | a publication request is joined if and only if it names a stored task, a stored attempt of it and that attempt's run, up to the space around the run id |
| `Admission.CapacityIsExact` | internal/api/task_attempts.go:530-549 | there is room exactly when nothing is pending or queued anywhere and, for a start, nothing is active or running |
| `Admission.CheckCapacity` | internal/api/task_attempts.go:530-549 | the loop returns the first conflict in the source's order |
| `Admission.AdmittedIsAdmissible` | internal/api/task_attempts.go:88-202 | every admitted request names an open task and builds an attempt that fits lineage, key use and the queue slot |
| `Admission.AdmittedExactly` | internal/api/task_attempts.go:98-157 | a request is admitted if and only if its key is not blank, its texts name a start or a queued refresh, a workspace and runner are selected and the history loaded, its task open, its parent fitting, its repositories in the manifest, its key unused, a root the first attempt, there is room for the intent it names, and its runner preset resolves |
| `Admission.StartNeedsIdleServer` | internal/api/task_attempts.go:145-157 | a request whose intent text is blank or "start" is admitted only when no attempt is queued or running and the coordinator has no active or pending run |
| `Admission.UsedKeyIsNeverAdmitted` | internal/api/task_attempts.go:132-140 | a key its task has already seen never admits an attempt, whatever else the request says |
| `Admission.ReplayIsExact` | internal/api/task_attempts.go:98-140 | sending an accepted request again returns its attempt if and only if a workspace and runner are selected, the history is loaded, the task's repositories are in the manifest, and the task is open at the admitted revision; in every other case it is refused, never admitted a second time |
| `Admission.LostScopeRefusesReplay` | internal/api/task_attempts.go:127-132 | a manifest that lost one of the task's repositories refuses the replay even of an open, unedited task |
| `Admission.UnselectedRefusesReplay` | internal/api/task_attempts.go:106-112 | a server restarted without a runner refuses the replay before it looks at the task |
| `AdmissionTable.FirstFailureDecides` | internal/api/task_attempts.go:88-302 | of the fourteen checks, each stated on the request's own texts and on the stored records, the first that fails decides the answer: every one has its own error, and a used key is replayed if and only if the stored fingerprint is that of this request |
| `AdmissionTable.AdmittedPlan` | internal/api/task_attempts.go:508-528 | what an admitted request is read as: the pipeline its text names ("update" is refresh, a blank one init, for a child the parent's), queued exactly when the intent text is "queue" and then a refresh, its parent, and the reason given or the operator's |
| `AdmissionTable.AdmittedRecord` | internal/api/task_attempts.go:653-663 | the record built for it: queued now, with the task's revision and intent, the request's key, pipeline, parent and reason, and no start, end, outcome or publication |
| `AdmissionTable.AnswersExactly` | internal/api/task_attempts.go:120-140 | a stored attempt answers a request if and only if key, task, revision, pipeline, intent, parent and reason are the same, by the texts of the request |
| `Admission.RollbackLeavesOnlyOthers` | internal/api/task_attempts.go:154-202 | append, any updates of other attempts, then remove equals those updates alone, but for the task's activity time |
| `Admission.RollbackIsIdentity` | internal/api/task_attempts.go:158-202 | with nothing in between, append then remove is the identity |
| `Rollback.RollbackIsAccepted` | internal/api/task_attempts.go:158-202 | in every reachable state the removal of a pending attempt passes validation, so a rollback fails only with its write |
| `Acceptance.MirrorAcceptedExactly` | internal/api/task_attempts.go:435-451 | a run's progress passes validation if and only if the run started no earlier than the attempt was queued and ended no earlier than it started, and the task was last edited no later, and archived no earlier, than now |
| `Acceptance.MarkAcceptedExactly` | internal/api/task_attempts.go:453-489 | restart marking passes if and only if the clock has reached the attempt's times and the task takes activity now |
| `Acceptance.LinkAcceptedExactly` | internal/api/task_publication.go:304-340 | a complete publication passes if and only if the task takes activity now |
| `EditAcceptance.CreateAcceptedExactly` | internal/api/tasks.go:92-137 | a new task is stored if and only if its id is well formed and new and its intent complete: title, goal, each repository once with named paths, a named preset and no unknown mode, provider or permission |
| `EditAcceptance.CreateEffect` | internal/api/tasks.go:97-120 | it says what the client asked for, open, at revision 1, now, with no attempt, outcome or publication |
| `EditAcceptance.EditAcceptedExactly` | internal/api/tasks.go:249-281 | an edit at the task's revision is stored if and only if what it makes of the intent is complete and the task takes activity now |
| `EditAcceptance.ArchiveAcceptedExactly` | internal/api/tasks.go:310-332 | archiving or unarchiving at the task's revision is stored whatever its attempts are doing, if and only if the clock has reached the task's creation |
| `EditAcceptance.AppendAcceptedExactly` | internal/api/task_attempts.go:154-162 | the attempt of an admitted request is stored if and only if its key is no longer than 256 and the clock has reached the task's last edit |
| `EditAcceptance.StoredTaskIsComplete` | internal/tasks/types.go:250-283 | in every reachable state every stored task has a complete intent, times in order, an archive time exactly when archived, and a complete outcome and publication or a reason why not |
| `EditAcceptance.StoredAttemptIsComplete` | internal/tasks/types.go:285-350 | in every reachable state every stored attempt belongs to a stored task and has a complete intent, times in order, an end and a terminal record exactly when it has ended, a reason exactly when it has a parent, and a complete outcome and publication or a reason why not |
| `ProtocolInvariant.StepKeepsInv` | internal/api/task_attempts.go:88-451 | every step of every interleaving (requests, orchestrator, watcher ticks, failed writes, shutdown, restart) keeps the whole invariant |
| `ProtocolRuns.RunKeepsInv` | internal/api/task_attempts.go:88-451 | so does every run |
| `ProtocolRuns.ViewsAlwaysAgree` | internal/api/task_attempts.go:848-932 | in every reachable state a task's summaries are the ordered projection of its attempts, and an available outcome names a succeeded attempt of that task with that run |
| `ProtocolRuns.LineageIsATree` | internal/api/task_attempts.go:257-274 | in every reachable state a task has one root, its first attempt, and every other attempt has an earlier terminal parent of the right status, so parent chains end at a root |
| `ProtocolRuns.QueueAndKeys` | internal/api/task_attempts.go:303-316 | in every reachable state at most one attempt is queued in the whole history and no two attempts of a task share a key |
| `ProtocolRuns.NeverAheadOfRun` | internal/api/task_attempts.go:889-950 | in every reachable state an attempt of a known run is succeeded, failed or canceled only if its run is the same and ended when it did, and running only if the run has left the queue |
| `ProtocolRuns.IntentAsAdmitted` | internal/api/task_attempts.go:669-677 | in every reachable state an attempt's intent is its task's intent at the admitted revision |
| `ProtocolRuns.AttemptsOnlyAdvance` | internal/api/task_attempts.go:889-932 | over any run a settled attempt keeps its place and identity and its status never goes back; an end is final |
| `ProtocolRuns.MirroredNeedsNothing` | internal/api/task_attempts.go:491-506 | an accepted mirror of a run leaves nothing more to mirror |
| `ProtocolRuns.WatcherStopsInformed` | internal/api/task_attempts.go:389-423 | a watcher that stops under a live context with a known run leaves the attempt succeeded, failed or canceled as the run is, with the run's end |
| `ProtocolRuns.NoWatcherPastTheGate` | internal/api/task_attempts.go:379-386 | once the gate is closed no step but a restart adds a watcher |
| `ProtocolRuns.NoCancelBeforeTheGate` | internal/api/server.go:207-246 | in every reachable state watchers have been canceled only if the gate is closed |
| `ProtocolResults.RunKeepsTasks` | internal/api/tasks.go:249-332 | over any run tasks stay in place and revisions only grow, the intent fixed while the revision is |
| `ProtocolResults.RevisionIsSpentOnce` | internal/api/tasks.go:249-281 | an accepted edit or archive raises the revision by one and touches no attempt, and after any further run another that expects the old revision is refused |
| `ProtocolResults.LogIsAppendOnly` | internal/api/tasks.go:249-332 | no step rewrites the intent recorded for a task revision |
| `ProtocolResults.LaunchedRequestReplays` | internal/api/task_attempts.go:98-140 | after any run and in any session, a launched request sent again returns its own attempt if and only if the server is ready, its manifest names the task's repositories and the task is open at the admitted revision, and is never admitted twice |
| `ProtocolResults.ArchivedAttemptFreezes` | internal/api/tasks.go:292-332 | an attempt queued or running when its task is archived stays so over every run without another archive step on that task, and while it does no start is admitted for any task |
| `ProtocolResults.ArchivingSticks` | internal/api/tasks.go:310-332 | and every live attempt can be frozen so: archiving its task at the current revision is accepted |
| `AttemptServer.Run` | internal/api/task_attempts.go:154-206 | append, launch or roll back, mirror once and attach the watcher: an uninterrupted pass is a run of the step machine; it ends with the attempt last, as admitted or as its run reported, and watched unless the gate is closed, or with the append taken back, and leaves an attempt behind without a run only when the removal could not be written |
| `AttemptServer.Admit` | internal/api/task_attempts.go:98-206 | the locked part of both admission handlers is a run of the step machine; refusals, replays, a failed append and a failed start leave the history exactly as it was, and an admission leaves it with the one attempt more |
| `AttemptServer.Tick` | internal/api/task_attempts.go:391-421 | one turn of the watcher loop is a run of the step machine; it writes exactly when the attempt needs an update, and the watcher ends exactly on an unknown run or once the end is stored |
| `AttemptServer.Watch` | internal/api/task_attempts.go:387-423 | the watcher loop retries failed writes and ends on an unknown run or a stored end |
| `AttemptServer.Reconcile` | internal/api/task_attempts.go:426-451 | the restart loop is a run of the step machine that leaves nothing to restore: every ended attempt stays, every attempt whose run is unknown has failed now and every other says what its run says, exactly where its write lands and validation takes it, and every live run is watched again |
| `Publication.JournalFile.Read` | internal/api/task_publication.go:236-246 | a journal is readable exactly when every entry decodes |
| `Publication.JournalFile.Write` | internal/api/task_publication.go:248-287 | a write takes effect, is lost, or takes effect and reports an error |
| `Publication.JournalFile.Prepare` | internal/api/task_publication.go:118-151 | the checks, in order, then one new entry unless an equal one is there |
| `Publication.JournalFile.Clear` | internal/api/task_publication.go:153-176 | the filter loop drops exactly the context's entries for the action |
| `Publication.JournalFile.Record` | internal/api/task_publication.go:304-340 | link first, then clear; a refused link leaves the journal alone |
| `Publication.JournalFile.Reconcile` | internal/api/task_publication.go:342-375 | the loop over the entries read at its start, skipping failures, stopping after the first success |
| `Publication.JournalFile.Serve` | internal/api/server.go:1238-1277 | the shared tail of the two Git handlers: prepare, move Git or clear, build, record |
| `PublicationProof.CrashRefinement` | internal/api/task_publication.go:118-176 | a commit or fresh branch interrupted anywhere: restarts give the uncrashed request's history up to activity times if Git had moved, the untouched history if not, and no later restart changes it again |
| `PublicationProof.PublishedAsMade` | internal/api/task_publication.go:289-398 | after a confirmed commit or branch request, uncrashed or crashed after the Git move and restarted any number of times, the task and the attempt name the HEAD Git moved to as commit and head, the branch Git is on, and the reference, base and inventory observed before; that commit has the old HEAD as its one parent and the requested message up to outer space, that branch is the trimmed target |
| `PublicationProof.ServedSays` | internal/api/task_publication.go:289-302 | an uninterrupted request publishes where Git stands afterwards, whatever Git did to the message |
| `PublicationProof.CrashAfterGitMoved` | internal/api/task_publication.go:304-398 | after the Git move, any number of restarts with any failures leave the old publications or the uncrashed ones, and the uncrashed ones for good once linked |
| `PublicationProof.RecoveryIsExact` | internal/api/task_publication.go:342-398 | between the Git move and the link, restarts recover the request if and only if the Git state still proves the intent; otherwise the history is untouched |
| `PublicationProof.CommitRecoveredExactly` | internal/api/task_publication.go:381-394 | a commit is recovered if and only if it has the old HEAD as its one parent and its message up to outer space |
| `PublicationProof.BranchRecoveredExactly` | internal/api/server.go:1358-1369 | a proposal branch is recovered if and only if checking it out kept HEAD, so the fallback checkout of another branch is not |
| `PublicationProof.CrashBeforeGitMoved` | internal/api/task_publication.go:377-398 | before the Git move restarts change nothing at all, unless the request names the branch Git is on |
| `PublicationProof.BranchAlreadyCurrent` | internal/api/task_publication.go:379-380 | in that case a restart links the branch though Git never moved |
| `PublicationProof.RestartIsFailClosed` | internal/api/task_publication.go:342-398 | for any journal, Git state and failures: every task and attempt is untouched or carries the publication of an entry that names it, is proved by the Git state and whose join exists; the journal gains nothing |
| `PublicationProof.FirstEligibleIsLinked` | internal/api/task_publication.go:354-374 | while journal writes succeed a restart links exactly the first entry that can be linked and drops that context's entries for that action |
| `PublicationProof.OthersAreKept` | internal/api/task_publication.go:165-171 | what clearing keeps and drops, entry by entry |
| `PublicationProof.OthersKeepTheirOrder` | internal/api/task_publication.go:165-171 | clearing keeps the order of the rest |
| `PublicationProof.EarlierTwinWins` | internal/api/task_publication.go:381-394 | of two commit intents with one branch, HEAD and message the earlier entry takes the publication and the later attempt stays as it was |
| `PublicationProof.PrepareKeepsReadable` | internal/api/task_publication.go:94-116 | preparing leaves the journal readable if and only if HEAD is not blank |
| `PublicationProof.UnreadableForGood` | internal/api/task_publication.go:140-164 | no prepare, clear, record or restart ever repairs an unreadable journal, and while it lasts every request with a context stops before Git moves |
| `Yaml.StripInlineComment` | scripts/yaml_compat.py:19-39 | the flag loop cuts at the first # outside quotes that starts the line or follows white space |
| `Yaml.Lex` | scripts/yaml_compat.py:77-85 | the line loop yields one token a non-blank line, or fails at the first tab |
| `YamlParser.Parser.ParseChildBlock` | scripts/yaml_compat.py:89-100 | the four parsers share the cursor, terminate on every token list (tokens left, then rank) and leave value, error and cursor as the functional descent says |
| `YamlParser.Parser.ParseBlock` | scripts/yaml_compat.py:102-111 | as above |
| `YamlParser.Parser.ParseMapping` | scripts/yaml_compat.py:113-133 | as above |
| `YamlParser.Parser.ParseList` | scripts/yaml_compat.py:135-169 | as above |
| `YamlParser.FallbackLoadYaml` | scripts/yaml_compat.py:76-174 | lexing, the descent from column 0 and the check that every token was consumed |
| `YamlPrinter.ScalarReads` | scripts/yaml_compat.py:42-60 | a printed null, boolean, integer or quoted string reads back as itself, and never as a mapping entry |
| `YamlPrinter.SpelledReads` | scripts/yaml_compat.py:42-60 | so does every other spelling of it: null, true and false in any case, a tilde, leading zeros, a bare string, a string between apostrophes |
| `YamlPrinter.BrokenQuoteReads` | scripts/yaml_compat.py:55-59 | a quoted text that evaluates to no literal is read as what stands between its quotes |
| `PythonLiteral.JsonStringEvaluates` | scripts/prepare-live-repos-file.py:155-156 | a JSON-escaped string evaluates as a Python literal to its UTF-16 form, and to itself if and only if it lies in the Basic Multilingual Plane |
| `YamlRoundTrip.PrintedTokensParse` | scripts/yaml_compat.py:87-174 | the descent returns the tree for every layout of it: each list at its key's own column or any number deeper, each mapping one or more deeper, items whose rest stands two or more in, items that are one key over a block, chosen node by node |
| `YamlRoundTrip.PrintedTreeLoads` | scripts/yaml_compat.py:76-174 | so does loading the text of any layout, with blank lines and comment lines between its lines and spaces and comments after them, through line splitting and the comment stripper |
| `YamlRoundTrip.LastBindingWins` | scripts/yaml_compat.py:113-163 | a mapping, and an item that further entries are merged into, holds every key once, with the last value it is given |
| `YamlRoundTrip.ListUnderValueIsDropped` | scripts/yaml_compat.py:152-157 | a list under an item that has its value already is read to its end and left out |
| `YamlRoundTrip.TabIsRefused` | scripts/yaml_compat.py:78-80 | a document with a tab in any line is refused for the first such line |
| `YamlRoundTrip.RoundTripExactly` | scripts/yaml_compat.py:76-174 | writing a tree down and loading it is the identity if and only if no map has a key twice and every string lies in the plane, whatever the layout, spelling and comments |
| `ReposFile.WriteReposYaml` | scripts/prepare-live-repos-file.py:159-170 | the loop appends exactly the lines of each repository, empty fields left out |
| `ReposFile.WriterPrintsDocument` | scripts/prepare-live-repos-file.py:159-170 | those lines are the printing of version 1 and the repository list |
| `ReposFile.WrittenFileLoads` | scripts/prepare-live-repos-file.py:159-170 | a written file always loads, as version 1 and the same repositories if and only if every field lies in the plane, quotes, backslashes, # and control characters included |
| `ReposFile.EmptyFileLoads` | scripts/prepare-live-repos-file.py:160-161 | an empty repository list loads as an empty mapping, not as a list |
| `Hunks.ParseUnifiedDiffHunks` | internal/api/review_diff.go:1284-1321 | the two running counters number each line by the lines of its side before it |
| `Hunks.NumbersAreConsecutive` | internal/api/review_diff.go:1284-1321 | for any text each side's numbers run on from its header's start without a gap |
| `Hunks.PrintedDiffParses` | internal/api/review_diff.go:1284-1321 | what any printed diff is read back as |
| `Hunks.RecoveredExactly` | internal/api/review_diff.go:1284-1321 | a printed diff is recovered if and only if no added content begins with ++ and no deleted one with -- |
| `Hunks.FinalNewline` | internal/api/review_diff.go:1284-1321 | a final newline adds exactly one empty context line to the last hunk, for any text |
| `Hunks.HeaderReads` | internal/api/review_diff.go:1323-1340 | a header as Git prints it, with or without counts, gives its own starts, and 1 for the side of a new or deleted file |
| `Hunks.ShortHeader` | internal/api/review_diff.go:1323-1327 | a header that names no two sides starts both at 1 |
| `Hunks.NoteIsSkipped` | internal/api/review_diff.go:1300-1302 | the note on a missing final newline is no line of any hunk |
| `Porcelain.ParseGitStatusV2Files` | internal/api/review_diff.go:974-1025 | the index loop with its two-slot rename record takes exactly the parts the specification takes |
| `Porcelain.StreamReadsBack` | internal/api/review_diff.go:974-1040 | every list of ordinary, renamed, unmerged and untracked records is read back in order, one file each, spaces in paths kept, an original path never a record |
| `Porcelain.FileKeepsFields` | internal/api/review_diff.go:1027-1108 | each field of a record ends up where it belongs: paths, the HEAD and index modes and object names, for an unmerged record the first stage and the worktree mode, the two letters of the code in the index and worktree columns, the label by the first of R, C, D, A and M among them, and the folder by the path up to its first slash |
| `Pagination.LimitIsExact` | internal/api/tasks.go:402-411 | no limit is 20, and a number is taken if and only if it lies between 1 and 100 |
| `Pagination.ListTasks` | internal/api/tasks.go:169-217 | the filter loop, the sort and the cut give the page and its cursor |
| `Pagination.ListingIsExact` | internal/api/tasks.go:169-202 | a listing holds exactly the selected tasks, once each, latest activity first, then by id |
| `Pagination.ListingReads` | internal/api/tasks.go:169-202 | filter by filter, a task is listed if and only if it has the lifecycle, the preset or provider and the repository asked for, its activity lies between the two times, and it comes after the cursor |
| `Pagination.ResumesAfter` | internal/api/tasks.go:439-449 | a cursor at the k-th item lists exactly what was left after it |
| `Pagination.PagesAreTheListing` | internal/api/tasks.go:143-217 | on one store following next_cursor ends and concatenates to the whole listing, every page but the last full |
| `Pagination.NothingListedTwice` | internal/api/tasks.go:143-217 | while activity times only grow no task is on two pages, whatever is added, touched or filtered in between |
| `Pagination.ListedAgainExactly` | internal/api/tasks.go:439-449 | what is left after a cursor holds a task if and only if it matches and its activity now falls past it |
| `Rollback.RollbackRelistsExactly` | internal/api/task_attempts.go:158-202 | a client has seen a task on some page and goes on after its new attempt was rolled back: the task is on a later page if and only if it still matches and its reset key falls past the last cursor |
| `Rollback.RollbackListsTwice` | internal/api/task_attempts.go:88-202 | an admitted request whose append and removal both validate puts one task on the first page and again on a later one |
| `Audit.Auditor.Add` | internal/artifactaudit/audit.go:543-555 | an issue is kept while there is room for it and the marker; otherwise the report is marked |
| `Audit.Auditor.Record` | internal/artifactaudit/audit.go:532-541 | an artifact is kept while there is room; otherwise the report is marked |
| `Audit.Auditor.MarkTruncated` | internal/artifactaudit/audit.go:557-575 | the loop adds the marker once |
| `Audit.Auditor.Finish` | internal/artifactaudit/audit.go:581-611 | the recount and the verdict |
| `Audit.ReportIsBounded` | internal/artifactaudit/audit.go:532-575 | whatever is reported and recorded: within both caps, one marker if and only if something was dropped, and the kept issues and artifacts are the first ones |
| `Audit.VerdictIsFailClosed` | internal/artifactaudit/audit.go:581-611 | pass, warn and fail are exactly nothing reported or dropped, only warnings reported, and an error reported or something dropped |
| `Audit.VerdictIgnoresOrder` | internal/artifactaudit/audit.go:345-370 | the verdict does not depend on the order checks report in |
| `AuditScan.ScanValidatorPaths` | internal/artifactaudit/audit.go:430-462 | the loops report every foreign, duplicate and missing path |
| `AuditScan.ScanDocument` | internal/artifactaudit/audit.go:307-334 | a document that escapes or cannot be read ends its check; otherwise it is recorded and its faults reported |
| `AuditScan.ScanReciprocalReferences` | internal/artifactaudit/audit.go:345-370 | the nested loops over both maps, in any order |
| `AuditScan.Scan` | internal/artifactaudit/audit.go:185-286 | the checks in order, with every early return |
| `AuditScan.FindingsAreExact` | internal/artifactaudit/audit.go:185-470 | a scan reports exactly what is wrong with the run, each thing with its own code and path, whatever order the maps are visited in, and everything but a non-actionable proposal and an unavailable repository as an error |
| `AuditScan.PassIsExact` | internal/artifactaudit/audit.go:185-286 | a scan passes if and only if every check is satisfied and its indexes, verdict and documents fit the artifact list; it warns if and only if those two are all that is wrong and nothing was dropped, and fails for anything else, as when documents and citations do not name each other |
| `AuditScan.ScanSelectedRunPublic` | internal/artifactaudit/audit.go:76-115 | the three ways the public surface ends |
| `Audit.FullExactly` | internal/artifactaudit/audit.go:532-575 | the report holds as many issues as its cap if and only if the checks reach one short of it before any artifact is dropped, and drop something after |
| `AuditScan.PublicFailsClosed` | internal/artifactaudit/audit.go:76-115 | without a valid effective verdict it never passes, and its report exceeds the issue cap, by one, if and only if the checks filled it; with one it passes and warns exactly as the scan does |
| `AuditScan.EffectiveVerdictCanGoUnlisted` | internal/artifactaudit/audit.go:107-113 | with a valid one, the verdict's own artifact is left out, unmarked, if and only if the scan read at least as many as the list holds; among passing runs, exactly those that read 2000, which with a readable provider verdict is 1997 documents |
| `AuditScan.EffectiveStatusIsIgnored` | internal/artifactaudit/audit.go:99-115 | whether the effective verdict is a PASS or a FAIL changes nothing in the public report |
| `AuditWitness.UnlistedVerdict` | internal/artifactaudit/audit.go:107-113 | a run of 1997 documents the readers accept whose scan passes, untruncated, with 2000 artifacts and without its effective verdict among them |
| `AuditWitness.OneIssueTooMany` | internal/artifactaudit/audit.go:76-88 | every run of 200 to 4000 unreadable documents the readers accept, without an effective verdict, gives a report with 201 issues |
| `AuditWitness.FailedVerdictPasses` | internal/artifactaudit/audit.go:99-115 | every sound run of up to 1997 documents with a FAIL effective verdict gets a public pass |
| `AuditWitness.RunIsReceived` | internal/contracts/docflow.go:250-302 | the runs of these cases meet the index rules: ids and paths present, ids and canonical paths unique, staged paths inside the run, within the read limit |
| `ShutdownGate.Server.Admit` | internal/api/task_attempts.go:379-386 | the admission's critical section |
| `ShutdownGate.Server.CloseGate` | internal/api/server.go:207-214 | the gate's critical section; one call gets the cancel function |
| `ShutdownGate.Server.CancelWatchers` | internal/api/server.go:244-246 | the delayed cancellation |
| `ShutdownGate.Server.CancelWithoutService` | internal/api/server.go:216-223 | the immediate cancellation when there is no service |
| `ShutdownGate.StepKeepsValid` | internal/api/server.go:197-249 | every step of every interleaving keeps the gate's invariant |
| `ShutdownGate.GateHolds` | internal/api/server.go:197-249 | after any run the wait counter is the number of live watchers, nobody waits while the gate is open, a call in its last wait has had the watchers canceled, and shutdowns are serialized |
| `ShutdownGate.NoneAfterShutdown` | internal/api/server.go:197-249 | no watcher starts once the gate is closed, and once a shutdown has returned none is ever alive again |

## Left out

- HistoryDraft.Draft.AppendAttempt: the attempt's resolved runtime profile (providers, models, permissions, timeouts) is not a field; those fields are copied and never read by the modelled code.
- HistoryDraft.Registry.Update: schema checks on fields outside the model (versions, evidence kinds, the spelling of path patterns, the runtime profile) are part of the input that says whether the write succeeds; the last-good copy and diagnostics are not modelled.
- AttemptServer.Watch: the ticker is a list of ticks and the run stands still while the method runs; runs, clocks and other requests that move in between are the business of the step machine.
- Admission.AdmittedExactly: which runner presets `buildAdmittedAttempt` can resolve is an input of the session, since provider, model and permission profiles are not modelled; the request body's JSON and the HTTP method are checked before the modelled part.
- AttemptServer.Admit: a failing runtime snapshot is folded into a failing launch, since both roll the attempt back in the same way.
- ProtocolInvariant.StepKeepsInv: a workspace or session switch under running watchers is not a step; one registry is used throughout.
- Publication.JournalFile.Write: the journal file is one atomic value; temporary files, modes and path containment are not modelled.
- Publication.JournalFile.Serve: confirmation of the workspace fingerprint, the in-flight-run check and `git add` come before the modelled part; a refused Git command is one outcome.
- Yaml.Lex: PyYAML, preferred when installed, is not modelled; only the fallback is.
- YamlPrinter.ScalarReads: quoted texts that hold more than one string token, or a \N name, load as an opaque `Evaluated` value; non-ASCII decimal digits and integers past Python's digit limit are read as text and as integers.
- YamlParser.FallbackLoadYaml: Python's recursion limit is not modelled.
- YamlRoundTrip.PrintedTreeLoads: the trees are those the loader has a text for; it reads none as an empty list, a list directly in a list, or an item of several entries that begins with a block.
- Hunks.ParseUnifiedDiffHunks: line counters are unbounded integers.
- Pagination.ListTasks: the base64 cursor codec and HTTP query parsing other than the limit are not modelled; unparsable timestamps cannot occur in a validated history.
- Audit.Auditor.Finish: the sort of issues and artifacts permutes the report and is not modelled; related paths and fixed message texts are left out.
- AuditScan.ScanDocument: what the content checks of one document report is its list of fault codes, an input.
- AuditScan.Scan: the content checks of one document and the file-system checks of one evidence locator are inputs (the codes they report); the promoted-snapshot comparison is not modelled.
- AuditWitness.RunIsReceived: kinds, titles, topics, semantics and times of an index are not modelled; the text of its documents is counted at its least length.
- ShutdownGate.GateHolds: the grace period is a step that may happen at any time, so no claim about its length is made.
- HTTP routing, status codes and payload shaping, the embedded UI, onboarding and the CLI.
- The orchestrator, contract parsing and workspace internals, beyond the assumptions above.
- Porcelain numstat merging, review summaries, architecture comparison and run snapshots: map merges and filters.
- `scripts/e2e_batch_report.py`, `scripts/verify-release-verdict.py` and the watchdog and probe scripts: file reading and flat conjunctions.
