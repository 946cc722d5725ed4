// The attempt protocol as a step machine: admissions under the lease, orchestrator
// runs, per-attempt watchers, failed registry writes, shutdown, crash and restart.
// Every registry update is one atomic step; everything around it may interleave.
module Protocol {
  import opened Wrappers
  import opened Text
  import opened TaskHistory
  import opened HistoryInvariants
  import opened Admission

  // What a watcher goroutine holds between two of its steps.
  datatype Local = Waiting | Holding(info: RunInfo) | Writing(info: RunInfo)

  datatype Watch = Watch(attemptId: Id, runId: Id, local: Local)

  // Where the request holding the admission lease stands.
  datatype Handler =
    | Idle
    | Checked(attempt: Attempt, req: Request, previous: Time)
    | Pending(attempt: Attempt, req: Request, previous: Time)
    | Launched(attempt: Attempt)
    | Mirroring(attempt: Attempt, info: RunInfo)
    | Attaching(attempt: Attempt)

  // An attempt restart reconciliation still has to look at.
  datatype Leftover = Leftover(k: nat, taskId: Id, attemptId: Id, runId: Id)

  datatype Recovery = Resting | Found(item: Leftover, info: RunInfo)

  datatype State = State(
    h: History, log: Log, runs: map<Id, RunInfo>, used: set<Id>, clock: Time, handler: Handler,
    watchers: map<nat, Watch>, closed: bool, live: bool, todo: seq<Leftover>, recovery: Recovery)

  datatype Step =
    | Tick(to: Time)
    | RunMoves(info: RunInfo)
    | RunForgotten(runId: Id)
    | Create(id: Id, intent: Intent, persisted: bool)
    | Edit(taskId: Id, expected: int, patch: Patch, persisted: bool)
    | Archive(taskId: Id, expected: int, archive: bool, persisted: bool)
    | Publicize(context: PublicationContext, publication: Publication, persisted: bool)
    | Check(c: Coordination, session: Session, req: Request, attemptId: Id, runId: Id)
    | Append(persisted: bool)
    | Launch(info: RunInfo)
    | LaunchFails(persisted: bool)
    | ReadBack
    | MirrorBack(persisted: bool)
    | Attach(w: nat)
    | WatchReads(w: nat)
    | WatchDecides(w: nat)
    | WatchWrites(w: nat, persisted: bool)
    | WatchQuits(w: nat)
    | CloseGate
    | CancelWatchers
    | Restart
    | Restore(persisted: bool)
    | RestoreMirrors(persisted: bool, w: nat)

  // ---------------------------------------------------------------- runs

  function Rank(s: AttemptStatus): nat {
    if s.Queued? then 0 else if s.Running? then 1 else 2
  }

  function RunRank(s: RunStatus): nat {
    if s.RunQueued? then 0 else if s.RunRunning? then 1 else 2
  }

  // An attempt and its run end in the same way.
  predicate EndsLike(a: AttemptStatus, r: RunStatus) {
    (a.Succeeded? <==> r.RunSucceeded?) && (a.Failed? <==> r.RunFailed?) && (a.Canceled? <==> r.RunCanceled?)
  }

  // `later` is what the same run may report after `info`.
  predicate Reached(info: RunInfo, later: RunInfo) {
    && later.runId == info.runId && later.attemptId == info.attemptId
    && RunRank(info.status) <= RunRank(later.status)
    && (info.status.Terminal() ==> later == info)
  }

  // ---------------------------------------------------------------- steps

  function NewTask(id: Id, intent: Intent, now: Time): Task {
    Task(id, intent, Open, 1, now, now, now, None, [],
         Unavailable("no attempt has completed"), Unpublished("no publication has been recorded"))
  }

  // No request is in flight and startup reconciliation is over.
  predicate Serving(s: State) {
    s.handler.Idle? && s.todo == [] && s.recovery.Resting?
  }

  function Edited(s: State, taskId: Id, m: Mutation, persisted: bool): State {
    var g := Publish(s.h, m, persisted);
    var ti := FirstTask(g.tasks, taskId);
    s.(h := g, log := if Accepted(s.h, m, persisted) && ti < |g.tasks| then Logged(s.log, g.tasks[ti]) else s.log)
  }

  function AfterCheck(s: State, c: Coordination, session: Session, req: Request, attemptId: Id, runId: Id): Option<State> {
    var d := Decide(s.h, c, session, req);
    var ti := FirstTask(s.h.tasks, req.taskId);
    if Serving(s) && d.Admit? && ti < |s.h.tasks| && attemptId != runId && attemptId !in s.used && runId !in s.used then
      var t := s.h.tasks[ti];
      Some(s.(handler := Checked(Built(t, Trim(req.key), d.plan, attemptId, runId, s.clock), req, t.lastActivityAt),
              used := s.used + {attemptId, runId}))
    else None
  }

  function AfterAppend(s: State, persisted: bool): Option<State> {
    match s.handler
    case Checked(a, req, previous) =>
      var m := AppendAttempt(a.taskId, a);
      if Accepted(s.h, m, persisted) then
        Some(s.(h := Publish(s.h, m, persisted), log := Admitted(s.log, a, Kind(req)), handler := Pending(a, req, previous)))
      else Some(s.(handler := Idle))
    case _ => None
  }

  function Attached(s: State, w: nat, attemptId: Id, runId: Id): State {
    if s.closed then s else s.(watchers := s.watchers[w := Watch(attemptId, runId, Waiting)])
  }

  function Unwatch(s: State, w: nat): State {
    s.(watchers := map v | v in s.watchers && v != w :: s.watchers[v])
  }

  function Holds(s: State, w: nat, local: Local): State
    requires w in s.watchers
  {
    s.(watchers := s.watchers[w := s.watchers[w].(local := local)])
  }

  function AfterDecision(s: State, w: nat): Option<State> {
    if w in s.watchers && s.watchers[w].local.Holding? && s.live then
      var info := s.watchers[w].local.info;
      if NeedsRunUpdate(s.h, info) then Some(Holds(s, w, Writing(info)))
      else if info.status.Terminal() then Some(Unwatch(s, w))
      else Some(Holds(s, w, Waiting))
    else None
  }

  function AfterWrite(s: State, w: nat, persisted: bool): Option<State> {
    if w in s.watchers && s.watchers[w].local.Writing? then
      var info := s.watchers[w].local.info;
      var m := MirrorRun(info, s.clock);
      var g := s.(h := Publish(s.h, m, persisted));
      if Accepted(s.h, m, persisted) then Some(if info.status.Terminal() then Unwatch(g, w) else Holds(g, w, Waiting))
      else Some(if s.live then Holds(g, w, Waiting) else Unwatch(g, w))
    else None
  }

  function Leftovers(xs: seq<Attempt>, from: nat := 0): seq<Leftover>
    requires from <= |xs|
    decreases |xs| - from
  {
    if from == |xs| then []
    else
      (if xs[from].status.Terminal() then [] else [Leftover(from, xs[from].taskId, xs[from].id, xs[from].runId)])
      + Leftovers(xs, from + 1)
  }

  function AfterRestore(s: State, persisted: bool): Option<State> {
    if s.todo == [] || !s.recovery.Resting? then None
    else
      var r, rest := s.todo[0], s.todo[1..];
      if r.runId in s.runs then Some(s.(todo := rest, recovery := Found(r, s.runs[r.runId])))
      else Some(s.(h := Publish(s.h, MarkUnavailable(r.taskId, r.attemptId, s.clock), persisted), todo := rest))
  }

  function AfterRestoreMirror(s: State, persisted: bool, w: nat): Option<State> {
    match s.recovery
    case Found(r, info) =>
      if w in s.watchers then None
      else
        var g := s.(
          h := if NeedsRunUpdate(s.h, info) then Publish(s.h, MirrorRun(info, s.clock), persisted) else s.h,
          recovery := Resting);
        Some(if info.status.Terminal() then g else Attached(g, w, r.attemptId, r.runId))
    case Resting => None
  }

  // The state a step leads to, or None where the step cannot happen.
  function Next(s: State, step: Step): Option<State> {
    match step
    case Tick(to) => if s.clock <= to then Some(s.(clock := to)) else None
    case RunMoves(info) =>
      if info.runId in s.runs && Reached(s.runs[info.runId], info) && InfoConsistent(info)
      then Some(s.(runs := s.runs[info.runId := info])) else None
    case RunForgotten(runId) => Some(s.(runs := map r | r in s.runs && r != runId :: s.runs[r]))
    case Create(id, intent, persisted) =>
      if Serving(s) then Some(Edited(s, id, CreateTask(NewTask(id, intent, s.clock)), persisted)) else None
    case Edit(taskId, expected, patch, persisted) =>
      if Serving(s) then Some(Edited(s, taskId, PatchTask(taskId, expected, patch, s.clock), persisted)) else None
    case Archive(taskId, expected, archive, persisted) =>
      if Serving(s) then Some(Edited(s, taskId, SetArchived(taskId, expected, archive, s.clock), persisted)) else None
    case Publicize(context, p, persisted) =>
      if Serving(s) then Some(s.(h := Publish(s.h, LinkPublication(context, p, s.clock), persisted))) else None
    case Check(c, session, req, attemptId, runId) => AfterCheck(s, c, session, req, attemptId, runId)
    case Append(persisted) => AfterAppend(s, persisted)
    case Launch(info) =>
      if s.handler.Pending? && info.runId == s.handler.attempt.runId && info.attemptId == s.handler.attempt.id && InfoConsistent(info)
      then Some(s.(runs := s.runs[info.runId := info], handler := Launched(s.handler.attempt))) else None
    case LaunchFails(persisted) =>
      if s.handler.Pending? then
        var a := s.handler.attempt;
        Some(s.(h := Publish(s.h, RemoveAttempt(a.taskId, a.id, s.handler.previous), persisted), handler := Idle))
      else None
    case ReadBack =>
      if s.handler.Launched? then
        var a := s.handler.attempt;
        Some(s.(handler := if a.runId in s.runs then Mirroring(a, s.runs[a.runId]) else Attaching(a)))
      else None
    case MirrorBack(persisted) =>
      if s.handler.Mirroring?
      then Some(s.(h := Publish(s.h, MirrorRun(s.handler.info, s.clock), persisted), handler := Attaching(s.handler.attempt)))
      else None
    case Attach(w) =>
      if s.handler.Attaching? && w !in s.watchers
      then Some(Attached(s, w, s.handler.attempt.id, s.handler.attempt.runId).(handler := Idle)) else None
    case WatchReads(w) =>
      if w in s.watchers && s.watchers[w].local.Waiting? then
        var runId := s.watchers[w].runId;
        Some(if runId in s.runs then Holds(s, w, Holding(s.runs[runId])) else Unwatch(s, w))
      else None
    case WatchDecides(w) => AfterDecision(s, w)
    case WatchWrites(w, persisted) => AfterWrite(s, w, persisted)
    case WatchQuits(w) =>
      if w in s.watchers && !s.live && !s.watchers[w].local.Writing? then Some(Unwatch(s, w)) else None
    case CloseGate => Some(s.(closed := true))
    case CancelWatchers => if s.closed then Some(s.(live := false)) else None
    case Restart =>
      Some(s.(handler := Idle, watchers := map[], closed := false, live := true,
              todo := Leftovers(s.h.attempts), recovery := Resting))
    case Restore(persisted) => AfterRestore(s, persisted)
    case RestoreMirrors(persisted, w) => AfterRestoreMirror(s, persisted, w)
  }

  function Start(clock: Time): State {
    State(History([], []), Log(map[], map[]), map[], {}, clock, Idle, map[], false, true, [], Resting)
  }

  // ---------------------------------------------------------------- the invariant

  // The attempt is no further than the run, and where it has ended, ended as the run did.
  predicate Behind(a: Attempt, info: RunInfo) {
    && info.runId == a.runId && info.attemptId == a.id
    && Rank(a.status) <= RunRank(info.status)
    && (a.status.Terminal() ==> EndsLike(a.status, info.status) && a.finishedAt == info.finishedAt)
  }

  ghost predicate AttemptOk(runs: map<Id, RunInfo>, used: set<Id>, a: Attempt) {
    && a.id in used && a.runId in used
    && (a.runId in runs ==> Behind(a, runs[a.runId]))
  }

  ghost predicate AttemptsOk(runs: map<Id, RunInfo>, used: set<Id>, xs: seq<Attempt>) {
    forall i {:trigger AttemptOk(runs, used, xs[i])} :: 0 <= i < |xs| ==> AttemptOk(runs, used, xs[i])
  }

  ghost predicate RunsOk(runs: map<Id, RunInfo>, used: set<Id>) {
    forall r :: r in runs ==> r in used && runs[r].runId == r && InfoConsistent(runs[r])
  }

  ghost predicate RunIdsDistinct(xs: seq<Attempt>) {
    forall i, j :: 0 <= i < j < |xs| ==> xs[i].runId != xs[j].runId
  }

  // Someone entitled to mirror this run into this attempt.
  ghost predicate Entitled(xs: seq<Attempt>, runs: map<Id, RunInfo>, used: set<Id>, attemptId: Id, runId: Id) {
    && attemptId in used && runId in used
    && (runId in runs ==> runs[runId].attemptId == attemptId)
    && (forall i :: 0 <= i < |xs| && xs[i].id == attemptId ==> xs[i].runId == runId)
  }

  // Run information read earlier that may still be written.
  ghost predicate Held(xs: seq<Attempt>, runs: map<Id, RunInfo>, attemptId: Id, runId: Id, info: RunInfo) {
    && info.attemptId == attemptId && info.runId == runId && InfoConsistent(info)
    && (runId in runs ==> Reached(info, runs[runId]))
    && (forall i :: 0 <= i < |xs| && xs[i].id == attemptId ==> Behind(xs[i], info))
  }

  ghost predicate WatchOk(xs: seq<Attempt>, runs: map<Id, RunInfo>, used: set<Id>, v: Watch) {
    && Entitled(xs, runs, used, v.attemptId, v.runId)
    && (!v.local.Waiting? ==> Held(xs, runs, v.attemptId, v.runId, v.local.info))
  }

  ghost predicate Unwatched(watchers: map<nat, Watch>, attemptId: Id) {
    forall w :: w in watchers ==> watchers[w].attemptId != attemptId
  }

  ghost predicate OneWatcherEach(watchers: map<nat, Watch>) {
    forall v, w :: v in watchers && w in watchers && v != w ==> watchers[v].attemptId != watchers[w].attemptId
  }

  ghost predicate WatchersOk(xs: seq<Attempt>, runs: map<Id, RunInfo>, used: set<Id>, watchers: map<nat, Watch>) {
    forall w {:trigger WatchOk(xs, runs, used, watchers[w])} :: w in watchers ==> WatchOk(xs, runs, used, watchers[w])
  }

  ghost predicate IsLast(xs: seq<Attempt>, a: Attempt) {
    && xs != []
    && var b := xs[|xs| - 1];
       b.id == a.id && b.taskId == a.taskId && b.runId == a.runId && b.status.Queued?
  }

  // The lease holder's attempt is its own: no watcher has it, nothing is left to restore.
  ghost predicate HandlerAlone(s: State, a: Attempt) {
    && s.todo == [] && s.recovery.Resting?
    && Unwatched(s.watchers, a.id)
    && (forall w :: w in s.watchers ==> s.watchers[w].runId != a.runId)
    && Entitled(s.h.attempts, s.runs, s.used, a.id, a.runId)
  }

  ghost predicate HandlerOk(s: State) {
    match s.handler
    case Idle => true
    case Checked(a, req, _) =>
      && HandlerAlone(s, a) && Admissible(s.h, a, Kind(req)) && Answers(s.h, req, a) && a.runId !in s.runs
      && (forall i :: 0 <= i < |s.h.attempts| ==> s.h.attempts[i].id != a.id && s.h.attempts[i].runId != a.runId)
    case Pending(a, req, _) =>
      && HandlerAlone(s, a) && IsLast(s.h.attempts, a) && a.runId !in s.runs
      && Answers(s.h, req, s.h.attempts[|s.h.attempts| - 1])
    case Launched(a) => HandlerAlone(s, a)
    case Mirroring(a, info) => HandlerAlone(s, a) && Held(s.h.attempts, s.runs, a.id, a.runId, info)
    case Attaching(a) => HandlerAlone(s, a)
  }

  ghost predicate LeftoverOk(xs: seq<Attempt>, watchers: map<nat, Watch>, r: Leftover) {
    && r.k < |xs|
    && xs[r.k].id == r.attemptId && xs[r.k].taskId == r.taskId && xs[r.k].runId == r.runId
    && Unwatched(watchers, r.attemptId)
  }

  ghost predicate TodoOk(xs: seq<Attempt>, watchers: map<nat, Watch>, todo: seq<Leftover>) {
    && (forall i {:trigger LeftoverOk(xs, watchers, todo[i])} :: 0 <= i < |todo| ==>
          LeftoverOk(xs, watchers, todo[i]) && !xs[todo[i].k].status.Terminal())
    && (forall i, j :: 0 <= i < j < |todo| ==> todo[i].k != todo[j].k)
  }

  ghost predicate FoundOk(s: State) {
    s.recovery.Found? ==>
      && LeftoverOk(s.h.attempts, s.watchers, s.recovery.item)
      && Held(s.h.attempts, s.runs, s.recovery.item.attemptId, s.recovery.item.runId, s.recovery.info)
      && (forall i :: 0 <= i < |s.todo| ==> s.todo[i].k != s.recovery.item.k)
  }

  // Every task was created by now.
  ghost predicate Dated(h: History, now: Time) {
    forall j :: 0 <= j < |h.tasks| ==> h.tasks[j].createdAt <= now
  }

  ghost predicate Inv(s: State) {
    && Sound(s.h, s.log)
    && Dated(s.h, s.clock)
    && RunsOk(s.runs, s.used)
    && AttemptsOk(s.runs, s.used, s.h.attempts)
    && RunIdsDistinct(s.h.attempts)
    && WatchersOk(s.h.attempts, s.runs, s.used, s.watchers)
    && OneWatcherEach(s.watchers)
    && HandlerOk(s)
    && TodoOk(s.h.attempts, s.watchers, s.todo)
    && FoundOk(s)
  }
}
