// The durable Task/Attempt history: its records, the validation every published
// history must pass, and the meaning of each mutation as a function on values.
module TaskHistory {
  import opened Wrappers
  import opened Text

  type Id = string

  // RFC 3339 timestamps, as the instant they denote.
  type Time = nat

  datatype Lifecycle = Open | Archived

  datatype AttemptStatus = Queued | Running | Succeeded | Failed | Canceled | Timeout {
    predicate Terminal() { !Queued? && !Running? }

    predicate Retryable() { Failed? || Canceled? || Timeout? }
  }

  datatype RunStatus = RunQueued | RunRunning | RunSucceeded | RunFailed | RunCanceled {
    predicate Terminal() { !RunQueued? && !RunRunning? }
  }

  datatype RunInfo = RunInfo(
    runId: Id, attemptId: Id, status: RunStatus, startedAt: Time, finishedAt: Option<Time>,
    errorCode: string, error: string)

  datatype RepositoryScope = RepositoryScope(name: string, paths: seq<string>)

  datatype RunnerPreset = RunnerPreset(
    preset: string, mode: string, provider: string, model: string, effort: string, permissions: string)

  datatype Intent = Intent(
    title: string, goal: string, context: string, scope: seq<RepositoryScope>, runner: RunnerPreset)

  datatype Evidence = EvidenceFull | EvidenceSummaryOnly | EvidenceUnavailable

  datatype Outcome =
    | Available(attemptId: Id, runId: Id, snapshotPath: string)
    | Unavailable(reason: string)

  datatype GitAction = Commit | Branch | PullRequest | OtherAction(name: string)

  // SHA-256 is taken as injective, so a digest is the content it was computed from.
  datatype Digest = Sha256(content: string) | NotADigest(text: string)

  datatype Publication =
    | Linked(attemptId: Id, runId: Id, action: GitAction, branch: string, baseRef: string,
             baseOid: string, headOid: string, commit: string, inventory: Digest)
    | Unpublished(reason: string)

  datatype TerminalSummary = TerminalSummary(
    status: AttemptStatus, errorCode: string, error: string, retained: Evidence)

  // A request fingerprint is an injective digest of exactly these fields.
  datatype Fingerprint = Fingerprint(
    taskId: Id, revision: nat, pipeline: string, intent: string, parent: Option<Id>, reason: string)

  datatype Attempt = Attempt(
    id: Id, taskId: Id, runId: Id, parent: Option<Id>, retryReason: string, pipeline: string,
    key: string, fingerprint: Fingerprint, revision: nat, intent: Intent, status: AttemptStatus,
    admittedAt: Time, queuedAt: Option<Time>, startedAt: Option<Time>, finishedAt: Option<Time>,
    terminal: Option<TerminalSummary>, retained: Evidence, outcome: Outcome, publication: Publication)

  datatype Summary = Summary(
    id: Id, runId: Id, parent: Option<Id>, revision: nat, status: AttemptStatus,
    admittedAt: Time, updatedAt: Time, finishedAt: Option<Time>, retained: Evidence)

  datatype Task = Task(
    id: Id, intent: Intent, lifecycle: Lifecycle, revision: nat, createdAt: Time, updatedAt: Time,
    lastActivityAt: Time, archivedAt: Option<Time>, attempts: seq<Summary>,
    outcome: Outcome, publication: Publication)

  datatype History = History(tasks: seq<Task>, attempts: seq<Attempt>)

  // ---------------------------------------------------------------- validation

  predicate OutcomeValid(o: Outcome, ofTask: bool) {
    match o
    case Available(attemptId, runId, path) =>
      (ofTask ==> IsOpaqueId(attemptId)) && !Blank(runId) && !Blank(path)
    case Unavailable(reason) => !Blank(reason)
  }

  predicate PublicationValid(p: Publication, ofTask: bool) {
    match p
    case Linked(attemptId, runId, action, branch, baseRef, baseOid, headOid, commit, inventory) =>
      && (ofTask ==> IsOpaqueId(attemptId))
      && !Blank(runId)
      && !action.OtherAction?
      && !Blank(branch) && !Blank(commit) && !Blank(baseRef) && !Blank(baseOid) && !Blank(headOid)
      && inventory.Sha256?
    case Unpublished(reason) => !Blank(reason)
  }

  predicate SummariesValid(ss: seq<Summary>) {
    && (forall i :: 0 <= i < |ss| ==> IsOpaqueId(ss[i].id) && !Blank(ss[i].runId) && ss[i].revision >= 1)
    && (forall i, j :: 0 <= i < j < |ss| ==> ss[i].id != ss[j].id)
  }

  // validateScope, but for the spelling of the path patterns
  predicate ScopeValid(scope: seq<RepositoryScope>) {
    && scope != []
    && (forall i :: 0 <= i < |scope| ==> !Blank(scope[i].name) && forall k :: 0 <= k < |scope[i].paths| ==> !Blank(scope[i].paths[k]))
    && (forall i, j :: 0 <= i < j < |scope| ==> Trim(scope[i].name) != Trim(scope[j].name))
  }

  // validateRunner
  predicate RunnerValid(r: RunnerPreset) {
    && !Blank(r.preset)
    && r.mode in {"", "fake", "headless"}
    && r.provider in {"", "claude-code", "qwen-code", "codex-code"}
    && r.permissions in {"", "trusted_full_access", "managed"}
  }

  predicate IntentValid(i: Intent) {
    !Blank(i.title) && !Blank(i.goal) && ScopeValid(i.scope) && RunnerValid(i.runner)
  }

  // created_at <= updated_at <= last_activity_at <= archived_at
  predicate TaskTimesValid(t: Task) {
    && t.createdAt <= t.updatedAt <= t.lastActivityAt
    && (t.archivedAt.Some? ==> t.lastActivityAt <= t.archivedAt.value)
  }

  predicate TaskValid(t: Task) {
    && IsOpaqueId(t.id)
    && IntentValid(t.intent)
    && t.revision >= 1
    && TaskTimesValid(t)
    && (t.lifecycle.Archived? <==> t.archivedAt.Some?)
    && SummariesValid(t.attempts)
    && OutcomeValid(t.outcome, true)
    && PublicationValid(t.publication, true)
  }

  predicate AttemptTimesValid(a: Attempt) {
    var queued := if a.queuedAt.Some? then a.queuedAt.value else a.admittedAt;
    var started := if a.startedAt.Some? then a.startedAt.value else queued;
    var finished := if a.finishedAt.Some? then a.finishedAt.value else started;
    a.admittedAt <= queued <= started <= finished
  }

  predicate AttemptValid(a: Attempt) {
    && IsOpaqueId(a.id) && IsOpaqueId(a.taskId) && !Blank(a.runId)
    && (a.parent.Some? ==> Trim(a.parent.value) != a.id)
    && (a.parent.Some? <==> !Blank(a.retryReason))
    && a.pipeline in {"", "init", "refresh"}
    && |a.key| <= 256
    && a.revision >= 1
    && IntentValid(a.intent)
    && AttemptTimesValid(a)
    && (a.status.Terminal() <==> a.finishedAt.Some?)
    && (a.status.Terminal() ==> a.terminal.Some?)
    && (a.terminal.Some? ==>
          a.terminal.value.status.Terminal() && a.terminal.value.status == a.status
          && a.terminal.value.retained == a.retained)
    && OutcomeValid(a.outcome, false)
    && PublicationValid(a.publication, false)
  }

  predicate Describes(s: Summary, a: Attempt) {
    s.id == a.id && s.runId == a.runId && s.revision == a.revision && s.status == a.status
  }

  predicate TasksValid(ts: seq<Task>) {
    && (forall i {:trigger TaskValid(ts[i])} :: 0 <= i < |ts| ==> TaskValid(ts[i]))
    && (forall i, j :: 0 <= i < j < |ts| ==> ts[i].id != ts[j].id)
  }

  predicate AttemptsValid(xs: seq<Attempt>) {
    && (forall i {:trigger AttemptValid(xs[i])} :: 0 <= i < |xs| ==> AttemptValid(xs[i]))
    && (forall i, j :: 0 <= i < j < |xs| ==> xs[i].id != xs[j].id)
  }

  // Some task carries a summary of the attempt.
  predicate Represented(ts: seq<Task>, a: Attempt) {
    exists i, k :: 0 <= i < |ts| && 0 <= k < |ts[i].attempts| && ts[i].id == a.taskId && Describes(ts[i].attempts[k], a)
  }

  predicate ParentPresent(xs: seq<Attempt>, a: Attempt) {
    a.parent.None? || exists i :: 0 <= i < |xs| && xs[i].id == a.parent.value && xs[i].taskId == a.taskId
  }

  predicate Backed(xs: seq<Attempt>, t: Task, s: Summary) {
    exists i :: 0 <= i < |xs| && xs[i].taskId == t.id && Describes(s, xs[i])
  }

  predicate HistoryValid(h: History) {
    && TasksValid(h.tasks)
    && AttemptsValid(h.attempts)
    && (forall i {:trigger Represented(h.tasks, h.attempts[i])} :: 0 <= i < |h.attempts| ==> Represented(h.tasks, h.attempts[i]))
    && (forall i {:trigger ParentPresent(h.attempts, h.attempts[i])} :: 0 <= i < |h.attempts| ==> ParentPresent(h.attempts, h.attempts[i]))
    && (forall i, k {:trigger Backed(h.attempts, h.tasks[i], h.tasks[i].attempts[k])} ::
          0 <= i < |h.tasks| && 0 <= k < |h.tasks[i].attempts| ==>
          Backed(h.attempts, h.tasks[i], h.tasks[i].attempts[k]))
  }

  // ---------------------------------------------------------------- lookups

  // Index of the first task with the id, at or after `from`; |ts| when there is none.
  function FirstTask(ts: seq<Task>, id: Id, from: nat := 0): (r: nat)
    requires from <= |ts|
    ensures from <= r <= |ts|
    ensures r < |ts| ==> ts[r].id == id
    ensures forall i :: from <= i < r ==> ts[i].id != id
    decreases |ts| - from
  {
    if from == |ts| || ts[from].id == id then from else FirstTask(ts, id, from + 1)
  }

  datatype AttemptQuery =
    | ById(taskId: Id, id: Id)
    | ByRun(runId: Id, id: Id)
    | ByKey(taskId: Id, key: string)
  {
    predicate Matches(a: Attempt) {
      match this
      case ById(taskId, id) => a.taskId == taskId && a.id == id
      case ByRun(runId, id) => a.runId == runId && a.id == id
      case ByKey(taskId, key) => a.taskId == taskId && a.key == key
    }
  }

  function FirstAttempt(xs: seq<Attempt>, q: AttemptQuery, from: nat := 0): (r: nat)
    requires from <= |xs|
    ensures from <= r <= |xs|
    ensures r < |xs| ==> q.Matches(xs[r])
    ensures forall i :: from <= i < r ==> !q.Matches(xs[i])
    decreases |xs| - from
  {
    if from == |xs| || q.Matches(xs[from]) then from else FirstAttempt(xs, q, from + 1)
  }

  function FirstSummary(ss: seq<Summary>, id: Id, from: nat := 0): (r: nat)
    requires from <= |ss|
    ensures from <= r <= |ss|
    ensures r < |ss| ==> ss[r].id == id
    ensures forall i :: from <= i < r ==> ss[i].id != id
    decreases |ss| - from
  {
    if from == |ss| || ss[from].id == id then from else FirstSummary(ss, id, from + 1)
  }

  predicate Contains(xs: seq<Attempt>, q: AttemptQuery) {
    FirstAttempt(xs, q) < |xs|
  }

  predicate TaskHasAttempts(xs: seq<Attempt>, taskId: Id) {
    exists i :: 0 <= i < |xs| && xs[i].taskId == taskId
  }

  // ---------------------------------------------------------------- mutations

  datatype MutationError =
    | TaskNotFound
    | AttemptExists
    | RevisionConflict(expected: int, actual: int)
    | EmptyPatch
    | LinkageNotFound
    | ContextInvalid
    | PublicationMismatch

  datatype Patch = Patch(
    title: Option<string>, goal: Option<string>, context: Option<string>,
    scope: Option<seq<RepositoryScope>>, runner: Option<RunnerPreset>)
  {
    predicate Empty() {
      title.None? && goal.None? && context.None? && scope.None? && runner.None?
    }

    function Applied(i: Intent): Intent {
      Intent(
        if title.Some? then title.value else i.title,
        if goal.Some? then goal.value else i.goal,
        if context.Some? then context.value else i.context,
        if scope.Some? then scope.value else i.scope,
        if runner.Some? then runner.value else i.runner)
    }
  }

  // The Task/Attempt/run join a publication request names.
  datatype PublicationContext = PublicationContext(taskId: Id, attemptId: Id, runId: Id) {
    predicate Provided() { !Blank(taskId) || !Blank(attemptId) || !Blank(runId) }

    predicate ShapeValid() {
      Provided() ==> IsOpaqueId(taskId) && IsOpaqueId(attemptId) && !Blank(runId)
    }

    // validateTaskPublicationContext succeeds on a provided context
    predicate JoinedIn(h: History) {
      && ShapeValid()
      && FirstTask(h.tasks, taskId) < |h.tasks|
      && var k := FirstAttempt(h.attempts, ById(taskId, attemptId));
         k < |h.attempts| && h.attempts[k].runId == Trim(runId)
    }
  }

  datatype Mutation =
    | CreateTask(task: Task)
    | PatchTask(taskId: Id, expected: int, patch: Patch, now: Time)
    | SetArchived(taskId: Id, expected: int, archive: bool, now: Time)
    | AppendAttempt(taskId: Id, attempt: Attempt)
    | RemoveAttempt(taskId: Id, attemptId: Id, previousActivity: Time)
    | MirrorRun(info: RunInfo, now: Time)
    | MarkUnavailable(taskId: Id, attemptId: Id, now: Time)
    | LinkPublication(context: PublicationContext, publication: Publication, now: Time)

  function SummaryOf(a: Attempt): Summary {
    Summary(a.id, a.runId, a.parent, a.revision, a.status, a.admittedAt, a.admittedAt, None, a.retained)
  }

  function Appended(h: History, taskId: Id, a: Attempt): Result<History, MutationError> {
    var ti := FirstTask(h.tasks, taskId);
    if Contains(h.attempts, ById(taskId, a.id)) then Err(AttemptExists)
    else if ti == |h.tasks| then Err(TaskNotFound)
    else
      var t := h.tasks[ti];
      Ok(History(
           h.tasks[ti := t.(attempts := t.attempts + [SummaryOf(a)], lastActivityAt := a.admittedAt)],
           h.attempts + [a]))
  }

  function Without(ss: seq<Summary>, id: Id): seq<Summary> {
    if ss == [] then []
    else
      var last := ss[|ss| - 1];
      Without(ss[..|ss| - 1], id) + if last.id == id then [] else [last]
  }

  function Removed(h: History, taskId: Id, id: Id, previousActivity: Time): History {
    var k := FirstAttempt(h.attempts, ById(taskId, id));
    var ti := FirstTask(h.tasks, taskId);
    if k == |h.attempts| then h
    else
      History(
        if ti == |h.tasks| then h.tasks
        else h.tasks[ti := h.tasks[ti].(attempts := Without(h.tasks[ti].attempts, id), lastActivityAt := previousActivity)],
        h.attempts[..k] + h.attempts[k + 1..])
  }

  function StatusOfRun(s: RunStatus): AttemptStatus {
    match s
    case RunQueued => Queued
    case RunRunning => Running
    case RunSucceeded => Succeeded
    case RunFailed => Failed
    case RunCanceled => Canceled
  }

  // Reasons, split where the proofs that they are not blank need their first letters.
  const RunLost := "runtime run" + " identity was not found after restart"
  const NoOutcome := "terminal run" + " did not produce a successful outcome"
  const LatestFailed := "latest attempt" + " did not produce a successful outcome"

  function SnapshotPath(runId: Id): string {
    "reports/taskruns/" + runId
  }

  function MirroredAttempt(a: Attempt, info: RunInfo): Attempt {
    var status := StatusOfRun(info.status);
    var running := a.(
      status := status,
      startedAt := if status.Running? && a.startedAt.None? then Some(info.startedAt) else a.startedAt);
    if info.finishedAt.None? then running
    else
      running.(
        finishedAt := info.finishedAt,
        terminal := Some(TerminalSummary(status, info.errorCode, info.error, a.retained)),
        outcome :=
          if status.Succeeded? then Available(a.id, a.runId, SnapshotPath(a.runId))
          else Unavailable(NoOutcome))
  }

  function MirroredSummaries(ss: seq<Summary>, a: Attempt, now: Time): seq<Summary> {
    seq(|ss|, i requires 0 <= i < |ss| =>
      if ss[i].id == a.id then ss[i].(status := a.status, updatedAt := now, finishedAt := a.finishedAt) else ss[i])
  }

  function MirroredTask(t: Task, a: Attempt, now: Time): Task {
    if t.id != a.taskId || FirstSummary(t.attempts, a.id) == |t.attempts| then t
    else
      t.(
        attempts := MirroredSummaries(t.attempts, a, now),
        lastActivityAt := now,
        outcome :=
          if a.status.Succeeded? then a.outcome
          else if a.status.Terminal() then Unavailable(LatestFailed)
          else t.outcome)
  }

  function MirroredTasks(ts: seq<Task>, a: Attempt, now: Time): seq<Task> {
    seq(|ts|, i requires 0 <= i < |ts| => MirroredTask(ts[i], a, now))
  }

  function Mirrored(h: History, info: RunInfo, now: Time): Result<History, MutationError> {
    var k := FirstAttempt(h.attempts, ByRun(info.runId, info.attemptId));
    if k == |h.attempts| then Err(LinkageNotFound)
    else
      var a := MirroredAttempt(h.attempts[k], info);
      Ok(History(MirroredTasks(h.tasks, a, now), h.attempts[k := a]))
  }

  // attemptNeedsRunUpdate
  predicate NeedsRunUpdate(h: History, info: RunInfo) {
    var k := FirstAttempt(h.attempts, ByRun(info.runId, info.attemptId));
    k < |h.attempts| &&
    var a := h.attempts[k];
    var status := StatusOfRun(info.status);
    || a.status != status
    || (info.finishedAt.Some? && a.finishedAt.None?)
    || (status.Running? && a.startedAt.None?)
    || (info.finishedAt.Some? && a.finishedAt.Some? && a.finishedAt != info.finishedAt)
  }


  function MarkedAttempt(a: Attempt, now: Time): Attempt {
    a.(
      status := Failed,
      finishedAt := Some(now),
      terminal := Some(TerminalSummary(Failed, "run_reconciled_after_restart", RunLost, a.retained)),
      outcome := Unavailable(RunLost))
  }

  // First task with the id that carries a summary of the attempt; |ts| when there is none.
  function FirstTaskWithSummary(ts: seq<Task>, taskId: Id, id: Id, from: nat := 0): (r: nat)
    requires from <= |ts|
    ensures from <= r <= |ts|
    ensures r < |ts| ==> ts[r].id == taskId && FirstSummary(ts[r].attempts, id) < |ts[r].attempts|
    ensures forall i :: from <= i < r ==> ts[i].id != taskId || FirstSummary(ts[i].attempts, id) == |ts[i].attempts|
    decreases |ts| - from
  {
    if from == |ts| || (ts[from].id == taskId && FirstSummary(ts[from].attempts, id) < |ts[from].attempts|) then from
    else FirstTaskWithSummary(ts, taskId, id, from + 1)
  }

  function MarkedTask(t: Task, id: Id, now: Time): Task {
    var si := FirstSummary(t.attempts, id);
    if si == |t.attempts| then t
    else
      t.(
        attempts := t.attempts[si := t.attempts[si].(status := Failed, updatedAt := now, finishedAt := Some(now))],
        lastActivityAt := now,
        outcome := Unavailable(RunLost))
  }

  function Marked(h: History, taskId: Id, id: Id, now: Time): Result<History, MutationError> {
    var k := FirstAttempt(h.attempts, ById(taskId, id));
    if k == |h.attempts| then Err(LinkageNotFound)
    else
      var ti := FirstTaskWithSummary(h.tasks, taskId, id);
      Ok(History(
           if ti == |h.tasks| then h.tasks else h.tasks[ti := MarkedTask(h.tasks[ti], id, now)],
           h.attempts[k := MarkedAttempt(h.attempts[k], now)]))
  }

  function PatchedTask(t: Task, expected: int, patch: Patch, now: Time): Result<Task, MutationError> {
    if t.revision != expected then Err(RevisionConflict(expected, t.revision))
    else if patch.Empty() then Err(EmptyPatch)
    else Ok(t.(intent := patch.Applied(t.intent), revision := t.revision + 1, updatedAt := now, lastActivityAt := now))
  }

  function ArchivedTask(t: Task, expected: int, archive: bool, now: Time): Result<Task, MutationError> {
    if t.revision != expected then Err(RevisionConflict(expected, t.revision))
    else
      Ok(t.(
           lifecycle := if archive then Archived else Open,
           archivedAt := if archive then Some(now) else None,
           revision := t.revision + 1, updatedAt := now, lastActivityAt := now))
  }

  function Replaced(h: History, ti: nat, task: Result<Task, MutationError>): Result<History, MutationError>
    requires ti < |h.tasks|
  {
    match task
    case Err(e) => Err(e)
    case Ok(t) => Ok(h.(tasks := h.tasks[ti := t]))
  }

  function PublishedIn(h: History, context: PublicationContext, p: Publication, now: Time): Result<History, MutationError> {
    if !context.JoinedIn(h) then Err(ContextInvalid)
    else
      var ti := FirstTask(h.tasks, context.taskId);
      var k := FirstAttempt(h.attempts, ById(context.taskId, context.attemptId));
      var a := h.attempts[k];
      if !p.Linked? || p.attemptId != a.id || p.runId != a.runId then Err(PublicationMismatch)
      else
        Ok(History(
             h.tasks[ti := h.tasks[ti].(publication := p, lastActivityAt := now)],
             h.attempts[k := a.(publication := p)]))
  }

  // What a mutator closure does to the candidate it is given.
  function Apply(h: History, m: Mutation): Result<History, MutationError> {
    match m
    case CreateTask(task) => Ok(h.(tasks := h.tasks + [task]))
    case PatchTask(taskId, expected, patch, now) =>
      var ti := FirstTask(h.tasks, taskId);
      if ti == |h.tasks| then Err(TaskNotFound)
      else Replaced(h, ti, PatchedTask(h.tasks[ti], expected, patch, now))
    case SetArchived(taskId, expected, archive, now) =>
      var ti := FirstTask(h.tasks, taskId);
      if ti == |h.tasks| then Err(TaskNotFound)
      else Replaced(h, ti, ArchivedTask(h.tasks[ti], expected, archive, now))
    case AppendAttempt(taskId, attempt) => Appended(h, taskId, attempt)
    case RemoveAttempt(taskId, attemptId, previous) => Ok(Removed(h, taskId, attemptId, previous))
    case MirrorRun(info, now) => Mirrored(h, info, now)
    case MarkUnavailable(taskId, attemptId, now) => Marked(h, taskId, attemptId, now)
    case LinkPublication(context, publication, now) => PublishedIn(h, context, publication, now)
  }

  // Registry.Update publishes a candidate only when the mutator accepted it, the
  // whole history still validates and the current file could be written.
  predicate Accepted(h: History, m: Mutation, persisted: bool) {
    Apply(h, m).Ok? && HistoryValid(Apply(h, m).value) && persisted
  }

  function Publish(h: History, m: Mutation, persisted: bool): History {
    if Accepted(h, m, persisted) then Apply(h, m).value else h
  }

  // A refused update leaves the history as it was.
  lemma PublishedOrNot(h: History, m: Mutation, persisted: bool)
    ensures !Accepted(h, m, persisted) ==> Publish(h, m, persisted) == h
  {
    hide Accepted;
  }
}
