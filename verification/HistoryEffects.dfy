// What each mutation changes in a history, field by field, and what it leaves alone.
module HistoryEffects {
  import opened Wrappers
  import opened Text
  import opened TaskHistory
  import opened HistoryInvariants

  // Every task but the one at ti is as it was.
  predicate OnlyTask(h: History, g: History, ti: nat) {
    && ti < |h.tasks| && |g.tasks| == |h.tasks|
    && forall i :: 0 <= i < |h.tasks| && i != ti ==> g.tasks[i] == h.tasks[i]
  }

  predicate OnlyAttempt(h: History, g: History, k: nat) {
    && k < |h.attempts| && |g.attempts| == |h.attempts|
    && forall i :: 0 <= i < |h.attempts| && i != k ==> g.attempts[i] == h.attempts[i]
  }

  // ---------------------------------------------------------------- edits

  // The field the patch names, or what stood there.
  predicate Takes<T(==)>(given: Option<T>, before: T, after: T) {
    (given.Some? ==> after == given.value) && (given.None? ==> after == before)
  }

  // A patch at the task's revision gives each field it names its value and keeps the others.
  lemma PatchEffect(h: History, taskId: Id, expected: int, patch: Patch, now: Time)
    ensures var ti, r := FirstTask(h.tasks, taskId), Apply(h, PatchTask(taskId, expected, patch, now));
            && (r.Ok? <==>
                  && ti < |h.tasks| && h.tasks[ti].revision == expected
                  && (patch.title.Some? || patch.goal.Some? || patch.context.Some? || patch.scope.Some? || patch.runner.Some?))
            && (r.Err? ==>
                  if ti == |h.tasks| then r.error == TaskNotFound
                  else if h.tasks[ti].revision != expected then r.error == RevisionConflict(expected, h.tasks[ti].revision)
                  else r.error == EmptyPatch)
            && (r.Ok? ==>
                  && OnlyTask(h, r.value, ti) && r.value.attempts == h.attempts
                  && var t, u := h.tasks[ti], r.value.tasks[ti];
                  && Takes(patch.title, t.intent.title, u.intent.title) && Takes(patch.goal, t.intent.goal, u.intent.goal)
                  && Takes(patch.context, t.intent.context, u.intent.context) && Takes(patch.scope, t.intent.scope, u.intent.scope)
                  && Takes(patch.runner, t.intent.runner, u.intent.runner)
                  && u.revision == t.revision + 1 && u.updatedAt == u.lastActivityAt == now
                  && u.(intent := t.intent, revision := t.revision, updatedAt := t.updatedAt, lastActivityAt := t.lastActivityAt) == t)
  {
  }

  // Archiving and unarchiving, at the task's revision.
  lemma ArchiveEffect(h: History, taskId: Id, expected: int, archive: bool, now: Time)
    ensures var ti, r := FirstTask(h.tasks, taskId), Apply(h, SetArchived(taskId, expected, archive, now));
            && (r.Ok? <==> ti < |h.tasks| && h.tasks[ti].revision == expected)
            && (r.Err? ==>
                  if ti == |h.tasks| then r.error == TaskNotFound
                  else r.error == RevisionConflict(expected, h.tasks[ti].revision))
            && (r.Ok? ==>
                  && OnlyTask(h, r.value, ti) && r.value.attempts == h.attempts
                  && var t, u := h.tasks[ti], r.value.tasks[ti];
                  && (archive ==> u.lifecycle.Archived? && u.archivedAt == Some(now))
                  && (!archive ==> u.lifecycle.Open? && u.archivedAt == None)
                  && u.revision == t.revision + 1 && u.updatedAt == u.lastActivityAt == now
                  && u.(lifecycle := t.lifecycle, archivedAt := t.archivedAt, revision := t.revision, updatedAt := t.updatedAt,
                        lastActivityAt := t.lastActivityAt) == t)
  {
  }

  // ---------------------------------------------------------------- attempts

  // The attempt goes last, and its task lists it last, as it stands.
  lemma AppendEffect(h: History, taskId: Id, a: Attempt)
    ensures var ti, r := FirstTask(h.tasks, taskId), Apply(h, AppendAttempt(taskId, a));
            && (r.Ok? <==>
                  ti < |h.tasks| && forall i :: 0 <= i < |h.attempts| && h.attempts[i].taskId == taskId ==> h.attempts[i].id != a.id)
            && (r.Err? ==>
                  r.error == if exists i :: 0 <= i < |h.attempts| && h.attempts[i].taskId == taskId && h.attempts[i].id == a.id
                             then AttemptExists else TaskNotFound)
            && (r.Ok? ==>
                  && OnlyTask(h, r.value, ti) && r.value.attempts == h.attempts + [a]
                  && var t, u := h.tasks[ti], r.value.tasks[ti];
                  && |u.attempts| == |t.attempts| + 1 && u.attempts[..|t.attempts|] == t.attempts
                  && var s := u.attempts[|t.attempts|];
                  && s.id == a.id && s.runId == a.runId && s.parent == a.parent && s.revision == a.revision && s.status == a.status
                  && s.admittedAt == s.updatedAt == a.admittedAt && s.finishedAt == None && s.retained == a.retained
                  && u.(attempts := t.attempts, lastActivityAt := t.lastActivityAt) == t && u.lastActivityAt == a.admittedAt)
  {
    var q := ById(taskId, a.id);
    assert forall i :: 0 <= i < |h.attempts| ==>
        (q.Matches(h.attempts[i]) <==> h.attempts[i].taskId == taskId && h.attempts[i].id == a.id);
  }

  // The attempt's status is the run's.
  predicate Reads(a: AttemptStatus, r: RunStatus) {
    && (a.Queued? <==> r.RunQueued?) && (a.Running? <==> r.RunRunning?) && (a.Succeeded? <==> r.RunSucceeded?)
    && (a.Failed? <==> r.RunFailed?) && (a.Canceled? <==> r.RunCanceled?)
  }

  // a after a report of its run: where the run stands, when it started and, once it has
  // ended, when, why and with what outcome.
  predicate AttemptTold(a: Attempt, b: Attempt, info: RunInfo) {
    && Reads(b.status, info.status)
    && b.startedAt == (if info.status.RunRunning? && a.startedAt.None? then Some(info.startedAt) else a.startedAt)
    && (info.finishedAt.None? ==> b.finishedAt == a.finishedAt && b.terminal == a.terminal && b.outcome == a.outcome)
    && (info.finishedAt.Some? ==>
          && b.finishedAt == info.finishedAt && b.terminal == Some(TerminalSummary(b.status, info.errorCode, info.error, a.retained))
          && if info.status.RunSucceeded? then b.outcome == Available(a.id, a.runId, "reports/taskruns/" + a.runId)
             else b.outcome.Unavailable?)
    && b.(status := a.status, startedAt := a.startedAt, finishedAt := a.finishedAt, terminal := a.terminal, outcome := a.outcome) == a
  }

  // Task t lists b as it now stands; its outcome is b's if b succeeded, none if b ended
  // otherwise, and what it was while b is live.
  predicate TaskTold(t: Task, u: Task, b: Attempt, now: Time) {
    && |u.attempts| == |t.attempts| && u.lastActivityAt == now
    && (forall i :: 0 <= i < |t.attempts| && t.attempts[i].id != b.id ==> u.attempts[i] == t.attempts[i])
    && (forall i :: 0 <= i < |t.attempts| && t.attempts[i].id == b.id ==>
          && u.attempts[i].status == b.status && u.attempts[i].finishedAt == b.finishedAt && u.attempts[i].updatedAt == now
          && u.attempts[i].(status := t.attempts[i].status, finishedAt := t.attempts[i].finishedAt,
                            updatedAt := t.attempts[i].updatedAt) == t.attempts[i])
    && (if b.status.Succeeded? then u.outcome == b.outcome
        else if b.status.Queued? || b.status.Running? then u.outcome == t.outcome
        else u.outcome.Unavailable?)
    && u.(attempts := t.attempts, lastActivityAt := t.lastActivityAt, outcome := t.outcome) == t
  }

  // A run's report reaches its attempt and its attempt's task, and nothing else; a task
  // without an outcome has one afterwards exactly when the run succeeded.
  lemma MirrorEffect(h: History, info: RunInfo, now: Time, k: nat, j: nat)
    requires Shape(h) && k < |h.attempts| && j < |h.tasks| && h.tasks[j].id == h.attempts[k].taskId
    requires h.attempts[k].runId == info.runId && h.attempts[k].id == info.attemptId && InfoConsistent(info)
    ensures var r := Apply(h, MirrorRun(info, now));
            && r.Ok? && OnlyAttempt(h, r.value, k) && OnlyTask(h, r.value, j)
            && AttemptTold(h.attempts[k], r.value.attempts[k], info)
            && TaskTold(h.tasks[j], r.value.tasks[j], r.value.attempts[k], now)
            && (h.tasks[j].outcome.Unavailable? ==>
                  (r.value.tasks[j].outcome.Available? <==> info.status.RunSucceeded?)
                  && (info.status.RunSucceeded? ==>
                        r.value.tasks[j].outcome == Available(info.attemptId, info.runId, "reports/taskruns/" + info.runId)))
  {
    AttemptAt(h, k);
    HasSummary(h, k, j);
    assert forall i :: 0 <= i < |h.tasks| && i != j ==> h.tasks[i].id != h.tasks[j].id;
    hide Shape;
  }

  // A report changes nothing worth a write exactly when the attempt already says it.
  lemma NeedsExactly(h: History, info: RunInfo, k: nat)
    requires Shape(h) && k < |h.attempts| && h.attempts[k].runId == info.runId && h.attempts[k].id == info.attemptId
    ensures NeedsRunUpdate(h, info)
            <==> !(&& Reads(h.attempts[k].status, info.status)
                   && (info.status.RunRunning? ==> h.attempts[k].startedAt.Some?)
                   && (info.finishedAt.Some? ==> h.attempts[k].finishedAt == info.finishedAt))
  {
    AttemptAt(h, k);
    hide Shape;
  }

  // An attempt whose run is gone after a restart has failed, now, without an outcome.
  lemma MarkEffect(h: History, now: Time, k: nat, j: nat)
    requires Shape(h) && k < |h.attempts| && j < |h.tasks| && h.tasks[j].id == h.attempts[k].taskId
    ensures var a, r := h.attempts[k], Apply(h, MarkUnavailable(h.attempts[k].taskId, h.attempts[k].id, now));
            && r.Ok? && OnlyAttempt(h, r.value, k) && OnlyTask(h, r.value, j)
            && var b := r.value.attempts[k];
            && b.status.Failed? && b.finishedAt == Some(now) && b.outcome.Unavailable?
            && b.terminal.Some? && b.terminal.value.status.Failed? && b.terminal.value.errorCode == "run_reconciled_after_restart"
            && b.terminal.value.retained == a.retained
            && b.(status := a.status, finishedAt := a.finishedAt, terminal := a.terminal, outcome := a.outcome) == a
            && TaskTold(h.tasks[j], r.value.tasks[j], b, now)
  {
    AttemptAt(h, k);
    HasSummary(h, k, j);
    var id := h.attempts[k].id;
    assert forall i :: 0 <= i < |h.tasks| && i != j ==> h.tasks[i].id != h.tasks[j].id;
    assert FirstTaskWithSummary(h.tasks, h.tasks[j].id, id) == j;
    assert SummariesDistinct(h.tasks[j]);
    hide Shape;
  }

  // A publication lands on the joined task and attempt when it names them, and nowhere else.
  lemma LinkEffect(h: History, context: PublicationContext, p: Publication, now: Time)
    requires context.JoinedIn(h)
    ensures var ti, k := FirstTask(h.tasks, context.taskId), FirstAttempt(h.attempts, ById(context.taskId, context.attemptId));
            var r := Apply(h, LinkPublication(context, p, now));
            && (r.Ok? <==> p.Linked? && p.attemptId == h.attempts[k].id && p.runId == h.attempts[k].runId)
            && (r.Err? ==> r.error == PublicationMismatch)
            && (r.Ok? ==>
                  && OnlyTask(h, r.value, ti) && OnlyAttempt(h, r.value, k)
                  && var t, u, a, b := h.tasks[ti], r.value.tasks[ti], h.attempts[k], r.value.attempts[k];
                  && u.publication == b.publication == p && u.lastActivityAt == now
                  && u.(publication := t.publication, lastActivityAt := t.lastActivityAt) == t
                  && b.(publication := a.publication) == a)
  {
    hide IsOpaqueId, Trim;
  }

  // In a validated history a publication request is joined exactly when it names a stored
  // task, a stored attempt of it and that attempt's run, up to the space around the run's id.
  lemma JoinedExactly(h: History, context: PublicationContext)
    requires HistoryValid(h)
    ensures context.JoinedIn(h) <==>
            && IsOpaqueId(context.taskId) && IsOpaqueId(context.attemptId) && !Blank(context.runId)
            && (exists t :: t in h.tasks && t.id == context.taskId)
            && (exists a :: a in h.attempts && a.taskId == context.taskId && a.id == context.attemptId && a.runId == Trim(context.runId))
  {
    ValidShape(h);
    var ti, k := FirstTask(h.tasks, context.taskId), FirstAttempt(h.attempts, ById(context.taskId, context.attemptId));
    if ti < |h.tasks| {
      assert TaskValid(h.tasks[ti]) && h.tasks[ti] in h.tasks;
      NotBlankId(context.taskId);
    }
    if k < |h.attempts| {
      assert h.attempts[k] in h.attempts;
    }
    forall a | a in h.attempts && a.taskId == context.taskId && a.id == context.attemptId
      ensures k < |h.attempts| && a == h.attempts[k]
    {
      var i :| 0 <= i < |h.attempts| && h.attempts[i] == a;
      assert ById(context.taskId, context.attemptId).Matches(h.attempts[i]);
    }
    hide TaskValid, AttemptsValid, Represented, ParentPresent, Backed, IsOpaqueId, Trim;
  }

  lemma NotBlankId(id: Id)
    ensures IsOpaqueId(id) ==> !Blank(id)
  {
    hide Trim;
  }
}
