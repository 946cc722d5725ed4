// Whole-run results about edits, replays and archived tasks.
module ProtocolResults {
  import opened Wrappers
  import opened Text
  import opened TaskHistory
  import opened HistoryInvariants
  import opened Admission
  import opened Acceptance
  import opened Protocol
  import opened ProtocolInvariant
  import opened ProtocolRuns

  // ---------------------------------------------------------------- tasks over time

  // Tasks keep their place and their id, and no revision is ever taken back or skipped.
  predicate TaskLater(t: Task, u: Task) {
    u.id == t.id && t.revision <= u.revision && (u.revision == t.revision ==> u.intent == t.intent)
  }

  predicate TasksLater(ts: seq<Task>, us: seq<Task>) {
    |ts| <= |us| && forall j :: 0 <= j < |ts| ==> TaskLater(ts[j], us[j])
  }

  lemma MutationKeepsTasks(h: History, m: Mutation, persisted: bool)
    ensures TasksLater(h.tasks, Publish(h, m, persisted).tasks)
  {
    hide HistoryValid, Without, FirstSummary, FirstAttempt;
  }

  lemma StepKeepsTasks(s: State, step: Step)
    requires Next(s, step).Some?
    ensures TasksLater(s.h.tasks, Next(s, step).value.h.tasks)
  {
    hide Apply, Publish, Accepted, Decide, NeedsRunUpdate;
    var t := Next(s, step).value;
    if t.h != s.h {
      var m, persisted := PublishedBy(s, step);
      MutationKeepsTasks(s.h, m, persisted);
    }
  }

  // The step publishes m on the history, at the clock's time.
  ghost predicate Publishes(s: State, step: Step, m: Mutation, persisted: bool)
    requires Next(s, step).Some?
  {
    && Next(s, step).value.h == Publish(s.h, m, persisted)
    && (m.PatchTask? || m.SetArchived? || m.MirrorRun? || m.MarkUnavailable? || m.LinkPublication? ==> m.now == s.clock)
    && (m.SetArchived? ==> step.Archive? && step.taskId == m.taskId)
    && (m.RemoveAttempt? ==>
          s.handler.Pending? && m.attemptId == s.handler.attempt.id && m.taskId == s.handler.attempt.taskId)
  }

  lemma RequestPublishes(s: State, step: Step) returns (m: Mutation, persisted: bool)
    requires Next(s, step).Some? && (step.Create? || step.Edit? || step.Archive? || step.Publicize?)
    ensures Publishes(s, step, m, persisted)
  {
    hide Apply, Publish, Accepted, NewTask, Logged;
    match step
    case Create(id, intent, p) => m, persisted := CreateTask(NewTask(id, intent, s.clock)), p;
    case Edit(taskId, expected, patch, p) => m, persisted := PatchTask(taskId, expected, patch, s.clock), p;
    case Archive(taskId, expected, archive, p) => m, persisted := SetArchived(taskId, expected, archive, s.clock), p;
    case Publicize(context, publication, p) => m, persisted := LinkPublication(context, publication, s.clock), p;
  }

  lemma LeasePublishes(s: State, step: Step) returns (m: Mutation, persisted: bool)
    requires Next(s, step).Some? && Next(s, step).value.h != s.h && (step.Append? || step.LaunchFails? || step.MirrorBack?)
    ensures Publishes(s, step, m, persisted)
  {
    hide Apply, Publish, Accepted, Admitted;
    match step
    case Append(p) => m, persisted := AppendAttempt(s.handler.attempt.taskId, s.handler.attempt), p;
    case LaunchFails(p) => m, persisted := RemoveAttempt(s.handler.attempt.taskId, s.handler.attempt.id, s.handler.previous), p;
    case MirrorBack(p) => m, persisted := MirrorRun(s.handler.info, s.clock), p;
  }

  lemma MirrorPublishes(s: State, step: Step) returns (m: Mutation, persisted: bool)
    requires Next(s, step).Some? && Next(s, step).value.h != s.h && (step.WatchWrites? || step.Restore? || step.RestoreMirrors?)
    ensures Publishes(s, step, m, persisted)
  {
    hide Apply, Publish, Accepted, NeedsRunUpdate;
    match step
    case WatchWrites(w, p) => m, persisted := MirrorRun(s.watchers[w].local.info, s.clock), p;
    case Restore(p) => m, persisted := MarkUnavailable(s.todo[0].taskId, s.todo[0].attemptId, s.clock), p;
    case RestoreMirrors(p, w) => m, persisted := MirrorRun(s.recovery.info, s.clock), p;
  }

  // Every change of the history is one published mutation.
  lemma PublishedBy(s: State, step: Step) returns (m: Mutation, persisted: bool)
    requires Next(s, step).Some? && Next(s, step).value.h != s.h
    ensures Publishes(s, step, m, persisted)
  {
    hide Next, Publishes;
    if step.Create? || step.Edit? || step.Archive? || step.Publicize? {
      m, persisted := RequestPublishes(s, step);
    } else if step.Append? || step.LaunchFails? || step.MirrorBack? {
      m, persisted := LeasePublishes(s, step);
    } else if step.WatchWrites? || step.Restore? || step.RestoreMirrors? {
      m, persisted := MirrorPublishes(s, step);
    } else {
      QuietStep(s, step);
    }
  }

  lemma {:induction false} RunKeepsTasks(s: State, steps: seq<Step>)
    requires After(s, steps).Some?
    ensures TasksLater(s.h.tasks, After(s, steps).value.h.tasks)
  {
    hide Next;
    if steps != [] {
      RunKeepsTasks(s, steps[..|steps| - 1]);
      StepKeepsTasks(After(s, steps[..|steps| - 1]).value, steps[|steps| - 1]);
    }
  }

  // An edit or archive the server accepted raises the task's revision by exactly one,
  // touches no attempt, and a later one that expects the old revision is refused.
  lemma RevisionIsSpentOnce(s: State, m: Mutation, steps: seq<Step>, s1: State, again: Mutation)
    requires Inv(s) && (m.PatchTask? || m.SetArchived?) && Accepted(s.h, m, true)
    requires s1.h == Publish(s.h, m, true) && Inv(s1) && After(s1, steps).Some?
    requires (again.PatchTask? || again.SetArchived?) && again.taskId == m.taskId && again.expected == m.expected
    ensures s1.h.attempts == s.h.attempts
    ensures var ti := FirstTask(s.h.tasks, m.taskId);
            ti < |s.h.tasks| && s1.h.tasks[ti].revision == s.h.tasks[ti].revision + 1
    ensures Apply(After(s1, steps).value.h, again).Err?
  {
    hide *;
    InvSound(s);
    TaskEditSound(s.h, s.log, m, m.taskId);
    RunKeepsInv(s1, steps);
    RunKeepsTasks(s1, steps);
    InvShape(After(s1, steps).value);
    SpentIsRefused(s1.h, After(s1, steps).value.h, FirstTask(s.h.tasks, m.taskId), again);
  }

  lemma SpentIsRefused(h: History, g: History, ti: nat, again: Mutation)
    requires TasksLater(h.tasks, g.tasks) && Shape(g) && ti < |h.tasks|
    requires (again.PatchTask? || again.SetArchived?) && again.taskId == h.tasks[ti].id && again.expected < h.tasks[ti].revision
    ensures Apply(g, again).Err?
  {
    assert TaskLater(h.tasks[ti], g.tasks[ti]);
    TaskAt(g, ti);
    hide Shape;
  }

  lemma InvShape(s: State)
    requires Inv(s)
    ensures Shape(s.h)
  {
    hide HistoryValid;
  }

  // ---------------------------------------------------------------- the intent log

  predicate LogGrows(before: map<(Id, nat), Intent>, after: map<(Id, nat), Intent>) {
    forall e :: e in before ==> e in after && after[e] == before[e]
  }

  lemma CreatedIdIsNew(h: History, log: Log, t: Task)
    requires Sound(h, log) && Accepted(h, CreateTask(t), true)
    ensures forall e :: e in log.intents ==> e.0 != t.id
  {
    var g := Publish(h, CreateTask(t), true);
    ValidShape(g);
    hide HistoryValid, Lineage, ViewsAgree;
    forall e | e in log.intents
      ensures e.0 != t.id
    {
      assert EntryCurrent(h, e);
      var i :| 0 <= i < |h.tasks| && h.tasks[i].id == e.0 && e.1 <= h.tasks[i].revision;
      assert g.tasks[i] == h.tasks[i] && g.tasks[|h.tasks|] == t;
    }
  }

  lemma EditedRevisionIsNew(h: History, log: Log, m: Mutation)
    requires Sound(h, log) && Accepted(h, m, true) && (m.PatchTask? || m.SetArchived?)
    ensures var g := Publish(h, m, true);
            var ti := FirstTask(g.tasks, m.taskId);
            ti < |g.tasks| && (g.tasks[ti].id, g.tasks[ti].revision) !in log.intents
  {
    hide HistoryValid, Lineage, ViewsAgree;
    TaskEditSound(h, log, m, m.taskId);
    var g := Publish(h, m, true);
    var ti := FirstTask(g.tasks, m.taskId);
    var e := (g.tasks[ti].id, g.tasks[ti].revision);
    assert !EntryCurrent(h, e) by {
      assert forall i :: 0 <= i < |h.tasks| && i != ti ==> h.tasks[i].id != h.tasks[ti].id;
    }
  }

  lemma EditedLogGrows(s: State, taskId: Id, m: Mutation, persisted: bool)
    requires Sound(s.h, s.log)
    requires (m.PatchTask? || m.SetArchived?) && m.taskId == taskId
    ensures LogGrows(s.log.intents, Edited(s, taskId, m, persisted).log.intents)
  {
    if Accepted(s.h, m, persisted) {
      EditedRevisionIsNew(s.h, s.log, m);
    }
    hide HistoryValid, Coherent;
  }

  lemma CreatedLogGrows(s: State, t: Task, persisted: bool)
    requires Sound(s.h, s.log) && t.attempts == [] && t.outcome.Unavailable?
    ensures LogGrows(s.log.intents, Edited(s, t.id, CreateTask(t), persisted).log.intents)
  {
    if Accepted(s.h, CreateTask(t), persisted) {
      CreatedIdIsNew(s.h, s.log, t);
      CreateSound(s.h, s.log, t);
    }
    hide HistoryValid, Coherent;
  }

  lemma OthersKeepLog(s: State, step: Step)
    requires Next(s, step).Some? && !step.Create? && !step.Edit? && !step.Archive?
    ensures Next(s, step).value.log.intents == s.log.intents
  {
    hide Publish, Accepted, Decide, NeedsRunUpdate, Leftovers, Built, InfoConsistent, Reached;
  }

  // A logged intent is never rewritten, so an attempt's snapshot is its revision's intent for good.
  lemma LogIsAppendOnly(s: State, step: Step)
    requires Inv(s) && Next(s, step).Some?
    ensures LogGrows(s.log.intents, Next(s, step).value.log.intents)
  {
    assert Sound(s.h, s.log);
    hide Inv, Sound, Accepted, Publish, Decide, NeedsRunUpdate;
    if step.Create? {
      CreatedLogGrows(s, NewTask(step.id, step.intent, s.clock), step.persisted);
    } else if step.Edit? {
      EditedLogGrows(s, step.taskId, PatchTask(step.taskId, step.expected, step.patch, s.clock), step.persisted);
    } else if step.Archive? {
      EditedLogGrows(s, step.taskId, SetArchived(step.taskId, step.expected, step.archive, s.clock), step.persisted);
    } else {
      OthersKeepLog(s, step);
    }
  }

  // ---------------------------------------------------------------- replay

  lemma AnswersCarry(h: History, g: History, req: Request, a: Attempt, b: Attempt)
    requires Answers(h, req, a) && Later(a, b) && Shape(h) && Shape(g)
    requires req.action.Child? ==>
               var p := FirstAttempt(h.attempts, ById(req.taskId, req.parentId));
               p < |h.attempts| && p < |g.attempts| && Later(h.attempts[p], g.attempts[p])
    ensures Answers(g, req, b)
  {
    hide ParseOptions, Shape;
    if req.action.Child? {
      var p := FirstAttempt(h.attempts, ById(req.taskId, req.parentId));
      AttemptAt(g, p);
    }
  }

  lemma AttemptHasTask(h: History, i: nat)
    requires Shape(h) && i < |h.attempts|
    ensures FirstTask(h.tasks, h.attempts[i].taskId) < |h.tasks|
  {
    assert Represented(h.tasks, h.attempts[i]);
  }

  // Whenever a launched request is sent again it returns its own attempt exactly while
  // the task is open at the admitted revision, the server is ready and its manifest names
  // the task's repositories; it is never admitted a second time.
  lemma LaunchedRequestReplays(s: State, info: RunInfo, steps: seq<Step>, c: Coordination, session: Session)
    requires Inv(s) && s.handler.Pending? && Next(s, Launch(info)).Some?
    requires After(Next(s, Launch(info)).value, steps).Some?
    ensures var t := After(Next(s, Launch(info)).value, steps).value;
            var n, req := |s.h.attempts| - 1, s.handler.req;
            var ti := FirstTask(t.h.tasks, req.taskId);
            && n < |t.h.attempts| && t.h.attempts[n].id == s.handler.attempt.id
            && ti < |t.h.tasks|
            && (Decide(t.h, c, session, req) == Replay(t.h.attempts[n])
                <==> session.Ready() && session.Covers(t.h.tasks[ti])
                     && t.h.tasks[ti].lifecycle.Open? && t.h.tasks[ti].revision == s.h.attempts[n].revision)
            && !Decide(t.h, c, session, req).Admit?
  {
    hide *;
    LaunchedStands(s, info);
    StandingReplays(s, Next(s, Launch(info)).value, steps, c, session, s.handler.req, |s.h.attempts| - 1);
  }

  lemma StandingReplays(s: State, s1: State, steps: seq<Step>, c: Coordination, session: Session, req: Request, n: nat)
    requires s1.h == s.h && Inv(s1) && After(s1, steps).Some? && s1.handler.Launched? && Settled(s1, n) && n < |s.h.attempts|
    requires Answers(s.h, req, s.h.attempts[n])
    ensures var t := After(s1, steps).value;
            var ti := FirstTask(t.h.tasks, req.taskId);
            && n < |t.h.attempts| && t.h.attempts[n].id == s.h.attempts[n].id
            && ti < |t.h.tasks|
            && (Decide(t.h, c, session, req) == Replay(t.h.attempts[n])
                <==> session.Ready() && session.Covers(t.h.tasks[ti])
                     && t.h.tasks[ti].lifecycle.Open? && t.h.tasks[ti].revision == s.h.attempts[n].revision)
            && !Decide(t.h, c, session, req).Admit?
  {
    hide *;
    AttemptsOnlyAdvance(s1, steps, n);
    RunKeepsInv(s1, steps);
    var t := After(s1, steps).value;
    SettledIsIn(t, n);
    LaterRequestAnswers(s, s1, steps, req, n);
    AttemptHasTask(t.h, n);
    AnswersTask(t.h, req, t.h.attempts[n]);
    ReplayIsExact(t.h, c, session, req, n);
    LaterIsSame(s1.h.attempts[n], t.h.attempts[n]);
  }

  lemma SettledIsIn(s: State, i: nat)
    requires Settled(s, i)
    ensures i < |s.h.attempts|
  {
  }

  // A launched attempt is settled, and answers its request.
  lemma LaunchedStands(s: State, info: RunInfo)
    requires Inv(s) && s.handler.Pending? && Next(s, Launch(info)).Some?
    ensures var s1, n := Next(s, Launch(info)).value, |s.h.attempts| - 1;
            && Inv(s1) && s1.h == s.h && s1.handler.Launched? && |s.h.attempts| > 0
            && Settled(s1, n) && s.h.attempts[n].id == s.handler.attempt.id
            && Answers(s.h, s.handler.req, s.h.attempts[n])
  {
    LaunchedState(s, info);
    hide *;
    StepKeepsInv(s, Launch(info));
    LastIsIn(s.h.attempts, s.handler.attempt);
  }

  lemma LaunchedState(s: State, info: RunInfo)
    requires Inv(s) && s.handler.Pending? && Next(s, Launch(info)).Some?
    ensures var s1 := Next(s, Launch(info)).value; s1.h == s.h && s1.handler.Launched?
    ensures IsLast(s.h.attempts, s.handler.attempt) && |s.h.attempts| > 0
    ensures Answers(s.h, s.handler.req, s.h.attempts[|s.h.attempts| - 1])
  {
    hide Sound, RunsOk, AttemptsOk, RunIdsDistinct, WatchersOk, OneWatcherEach, HandlerAlone, TodoOk, FoundOk, Answers;
  }

  lemma LastIsIn(xs: seq<Attempt>, a: Attempt)
    requires IsLast(xs, a)
    ensures xs[|xs| - 1].id == a.id
  {
  }

  lemma LaterIsSame(a: Attempt, b: Attempt)
    requires Later(a, b)
    ensures b.id == a.id && b.revision == a.revision
  {
  }

  // Its request still finds it after any run.
  lemma LaterRequestAnswers(s: State, s1: State, steps: seq<Step>, req: Request, n: nat)
    requires s1.h == s.h && Inv(s1) && After(s1, steps).Some? && s1.handler.Launched? && n < |s.h.attempts|
    requires Answers(s.h, req, s.h.attempts[n])
    requires Inv(After(s1, steps).value) && n < |After(s1, steps).value.h.attempts|
    requires Later(s.h.attempts[n], After(s1, steps).value.h.attempts[n])
    ensures var t := After(s1, steps).value;
            Answers(t.h, req, t.h.attempts[n]) && Shape(t.h) && KeysUsedOnce(t.h.attempts)
  {
    hide *;
    var t := After(s1, steps).value;
    InvShape(s1);
    InvShape(t);
    KeysOnce(t);
    ParentPersists(s, s1, steps, req, n);
    AnswersCarry(s.h, t.h, req, s.h.attempts[n], t.h.attempts[n]);
  }

  lemma AnswersTask(h: History, req: Request, a: Attempt)
    requires Answers(h, req, a)
    ensures a.taskId == req.taskId
  {
  }

  lemma KeysOnce(s: State)
    requires Inv(s)
    ensures KeysUsedOnce(s.h.attempts)
  {
    hide HistoryValid;
  }

  lemma ParentPersists(s: State, s1: State, steps: seq<Step>, req: Request, n: nat)
    requires s1.h == s.h && Inv(s1) && After(s1, steps).Some? && s1.handler.Launched? && n < |s.h.attempts|
    requires Answers(s.h, req, s.h.attempts[n])
    ensures req.action.Child? ==>
              var p, t := FirstAttempt(s.h.attempts, ById(req.taskId, req.parentId)), After(s1, steps).value;
              p < |s.h.attempts| && p < |t.h.attempts| && Later(s.h.attempts[p], t.h.attempts[p])
  {
    hide Inv, ParseOptions, ChildOptions;
    if req.action.Child? {
      AttemptsOnlyAdvance(s1, steps, FirstAttempt(s.h.attempts, ById(req.taskId, req.parentId)));
    }
  }

  // ---------------------------------------------------------------- archived with a live attempt

  // An attempt still queued or running under a task archived in the past.
  predicate Stuck(s: State, i: nat, j: nat) {
    && Settled(s, i) && j < |s.h.tasks|
    && s.h.tasks[j].id == s.h.attempts[i].taskId
    && s.h.tasks[j].archivedAt.Some? && s.h.tasks[j].archivedAt.value < s.clock
    && !s.h.attempts[i].status.Terminal()
  }

  lemma ArchiveTimeStays(h: History, m: Mutation, persisted: bool, j: nat)
    requires j < |h.tasks| && (m.SetArchived? ==> m.taskId != h.tasks[j].id)
    ensures var g := Publish(h, m, persisted);
            j < |g.tasks| && g.tasks[j].id == h.tasks[j].id && g.tasks[j].archivedAt == h.tasks[j].archivedAt
  {
    hide HistoryValid, Without, FirstSummary, FirstAttempt;
  }

  lemma MirrorIsShutOut(h: History, info: RunInfo, now: Time, i: nat, j: nat)
    requires HistoryValid(h) && i < |h.attempts| && j < |h.tasks| && h.tasks[j].id == h.attempts[i].taskId
    requires h.tasks[j].archivedAt.Some? && h.tasks[j].archivedAt.value < now
    requires FirstAttempt(h.attempts, ByRun(info.runId, info.attemptId)) == i
    ensures !Accepted(h, MirrorRun(info, now), true)
  {
    ValidShape(h);
    HasSummary(h, i, j);
    var g := Mirrored(h, info, now).value;
    assert !TaskValid(g.tasks[j]);
  }

  lemma MarkIsShutOut(h: History, taskId: Id, id: Id, now: Time, i: nat, j: nat)
    requires HistoryValid(h) && i < |h.attempts| && j < |h.tasks| && h.tasks[j].id == h.attempts[i].taskId
    requires h.tasks[j].archivedAt.Some? && h.tasks[j].archivedAt.value < now
    requires FirstAttempt(h.attempts, ById(taskId, id)) == i
    ensures !Accepted(h, MarkUnavailable(taskId, id, now), true)
  {
    ValidShape(h);
    HasSummary(h, i, j);
    var g := Marked(h, taskId, id, now).value;
    assert FirstTaskWithSummary(h.tasks, taskId, id) == j by {
      assert forall x, y :: 0 <= x < y < |h.tasks| ==> h.tasks[x].id != h.tasks[y].id;
    }
    assert !TaskValid(g.tasks[j]);
  }

  lemma LiveAttemptStays(h: History, m: Mutation, persisted: bool, now: Time, i: nat, j: nat)
    requires HistoryValid(h) && i < |h.attempts| && j < |h.tasks| && h.tasks[j].id == h.attempts[i].taskId
    requires h.tasks[j].archivedAt.Some? && h.tasks[j].archivedAt.value < now
    requires m.MirrorRun? || m.MarkUnavailable? ==> m.now == now
    requires m.RemoveAttempt? ==> FirstAttempt(h.attempts, ById(m.taskId, m.attemptId)) > i
    ensures var g := Publish(h, m, persisted);
            i < |g.attempts| && g.attempts[i].status == h.attempts[i].status && g.attempts[i].taskId == h.attempts[i].taskId
  {
    if m.MirrorRun? && FirstAttempt(h.attempts, ByRun(m.info.runId, m.info.attemptId)) == i {
      MirrorIsShutOut(h, m.info, now, i, j);
    } else if m.MarkUnavailable? && FirstAttempt(h.attempts, ById(m.taskId, m.attemptId)) == i {
      MarkIsShutOut(h, m.taskId, m.attemptId, now, i, j);
    }
    hide HistoryValid, Without, FirstSummary;
  }

  lemma StuckStays(s: State, step: Step, i: nat, j: nat)
    requires Inv(s) && Next(s, step).Some? && Stuck(s, i, j)
    requires step.Archive? ==> step.taskId != s.h.tasks[j].id
    ensures Stuck(Next(s, step).value, i, j)
  {
    ClockKeepsGoing(s, step);
    StepIsLater(s, step, i);
    hide *;
    StuckIs(s, i, j);
    StuckArchive(s, step, j);
    StuckAttempt(s, step, i, j);
    IsStuck(s, Next(s, step).value, i, j);
  }

  lemma PublishesIs(s: State, step: Step, m: Mutation, persisted: bool)
    requires Next(s, step).Some? && Publishes(s, step, m, persisted)
    ensures Next(s, step).value.h == Publish(s.h, m, persisted)
    ensures m.MirrorRun? || m.MarkUnavailable? ==> m.now == s.clock
    ensures m.SetArchived? ==> step.Archive? && step.taskId == m.taskId
    ensures m.RemoveAttempt? ==> s.handler.Pending? && m.attemptId == s.handler.attempt.id && m.taskId == s.handler.attempt.taskId
  {
    hide Publish, Next;
  }

  // The archive time of a task nobody archives stays.
  lemma StuckArchive(s: State, step: Step, j: nat)
    requires Next(s, step).Some? && j < |s.h.tasks|
    requires step.Archive? ==> step.taskId != s.h.tasks[j].id
    ensures var t := Next(s, step).value;
            j < |t.h.tasks| && t.h.tasks[j].id == s.h.tasks[j].id && t.h.tasks[j].archivedAt == s.h.tasks[j].archivedAt
  {
    hide *;
    if Next(s, step).value.h != s.h {
      var m, persisted := PublishedBy(s, step);
      PublishesIs(s, step, m, persisted);
      ArchiveTimeStays(s.h, m, persisted, j);
    }
  }

  // A settled attempt of a task archived in the past keeps its status.
  lemma StuckAttempt(s: State, step: Step, i: nat, j: nat)
    requires Inv(s) && Next(s, step).Some? && Settled(s, i) && i < |s.h.attempts|
    requires j < |s.h.tasks| && s.h.tasks[j].id == s.h.attempts[i].taskId
    requires s.h.tasks[j].archivedAt.Some? && s.h.tasks[j].archivedAt.value < s.clock
    ensures var t := Next(s, step).value;
            i < |t.h.attempts| && t.h.attempts[i].status == s.h.attempts[i].status
            && t.h.attempts[i].taskId == s.h.attempts[i].taskId
  {
    SettledIsBefore(s, i);
    hide *;
    if Next(s, step).value.h != s.h {
      InvHistoryValid(s);
      var m, persisted := PublishedBy(s, step);
      PublishesIs(s, step, m, persisted);
      if m.RemoveAttempt? {
        PendingIsLast(s);
      }
      LiveAttemptStays(s.h, m, persisted, s.clock, i, j);
    }
  }

  lemma SettledIsBefore(s: State, i: nat)
    requires Settled(s, i)
    ensures s.handler.Pending? ==> i < |s.h.attempts| - 1
  {
  }

  lemma InvHistoryValid(s: State)
    requires Inv(s)
    ensures HistoryValid(s.h)
  {
    hide HistoryValid;
  }

  lemma ClockKeepsGoing(s: State, step: Step)
    requires Next(s, step).Some?
    ensures s.clock <= Next(s, step).value.clock
  {
    hide Publish, Accepted, Decide, NeedsRunUpdate, Leftovers;
  }

  lemma StuckIs(s: State, i: nat, j: nat)
    requires Stuck(s, i, j)
    ensures i < |s.h.attempts| && Settled(s, i) && j < |s.h.tasks|
    ensures s.h.tasks[j].id == s.h.attempts[i].taskId && !s.h.attempts[i].status.Terminal()
    ensures s.h.tasks[j].archivedAt.Some? && s.h.tasks[j].archivedAt.value < s.clock
  {
  }

  lemma IsStuck(s: State, t: State, i: nat, j: nat)
    requires Stuck(s, i, j) && s.clock <= t.clock && Settled(t, i) && i < |t.h.attempts| && j < |t.h.tasks|
    requires t.h.tasks[j].id == s.h.tasks[j].id && t.h.tasks[j].archivedAt == s.h.tasks[j].archivedAt
    requires t.h.attempts[i].status == s.h.attempts[i].status && t.h.attempts[i].taskId == s.h.attempts[i].taskId
    ensures Stuck(t, i, j)
  {
  }

  lemma PendingIsLast(s: State)
    requires Inv(s) && s.handler.Pending?
    ensures FirstAttempt(s.h.attempts, ById(s.handler.attempt.taskId, s.handler.attempt.id)) == |s.h.attempts| - 1
  {
    InvShape(s);
    AttemptAt(s.h, |s.h.attempts| - 1);
  }

  // Archiving a task under a live attempt freezes the attempt until the task is archived
  // or unarchived again, whatever its run, its watcher or any restart does; and while it
  // is frozen no request of any task is admitted to start.
  lemma {:induction false} ArchivedAttemptFreezes(s: State, steps: seq<Step>, i: nat, j: nat)
    requires Inv(s) && After(s, steps).Some? && Stuck(s, i, j)
    requires forall x :: 0 <= x < |steps| && steps[x].Archive? ==> steps[x].taskId != s.h.tasks[j].id
    ensures var t := After(s, steps).value;
            && Stuck(t, i, j) && t.h.tasks[j].id == s.h.tasks[j].id
            && forall c, session, req ::
                 Decide(t.h, c, session, req).Admit? ==> AsksQueue(req.intent)
  {
    hide Inv, Next, Decide;
    if steps != [] {
      var init, last := steps[..|steps| - 1], steps[|steps| - 1];
      ArchivedAttemptFreezes(s, init, i, j);
      var m := After(s, init).value;
      RunKeepsInv(s, init);
      StuckStays(m, last, i, j);
      StepKeepsTasks(m, last);
    }
    var t := After(s, steps).value;
    forall c, session, req | Decide(t.h, c, session, req).Admit?
      ensures AsksQueue(req.intent)
    {
      AdmittedExactly(t.h, c, session, req);
      if AsksStart(req.intent) {
        StartNeedsIdleServer(t.h, c, session, req);
      }
    }
  }

  // Any live attempt can be frozen so: archiving its task at the current revision is
  // accepted, and the next moment of the clock it is stuck.
  lemma ArchivingSticks(s: State, i: nat, j: nat)
    requires Inv(s) && Serving(s) && i < |s.h.attempts| && !s.h.attempts[i].status.Terminal()
    requires j < |s.h.tasks| && s.h.tasks[j].id == s.h.attempts[i].taskId
    ensures var archive := Archive(s.h.tasks[j].id, s.h.tasks[j].revision, true, true);
            && Next(s, archive).Some? && Next(Next(s, archive).value, Tick(s.clock + 1)).Some?
            && Stuck(Next(Next(s, archive).value, Tick(s.clock + 1)).value, i, j)
  {
    InvShape(s);
    TaskAt(s.h, j);
    assert HistoryValid(s.h);
    ArchivingIsAccepted(s.h, j, s.clock);
    hide Inv, HistoryValid, Shape, Accepted;
    var m := SetArchived(s.h.tasks[j].id, s.h.tasks[j].revision, true, s.clock);
    assert Publish(s.h, m, true) == Apply(s.h, m).value;
  }
}
