// Which new tasks, edits, archivings and attempts validation lets through, in terms of
// what the client sent, and what every stored record says.
module EditAcceptance {
  import opened Wrappers
  import opened Text
  import opened TaskHistory
  import opened HistoryInvariants
  import opened Acceptance
  import opened Admission
  import opened Protocol
  import opened AdmissionTable

  // What a task's intent has to say: a title and a goal, each repository once with named
  // paths, and a runner preset that names nothing unknown.
  predicate Complete(i: Intent) {
    && !Blank(i.title) && !Blank(i.goal)
    && |i.scope| >= 1
    && (forall r :: r in i.scope ==> !Blank(r.name) && forall p :: p in r.paths ==> !Blank(p))
    && (forall x, y :: 0 <= x < y < |i.scope| ==> Trim(i.scope[x].name) != Trim(i.scope[y].name))
    && !Blank(i.runner.preset)
    && (i.runner.mode == "" || i.runner.mode == "fake" || i.runner.mode == "headless")
    && (i.runner.provider == "" || i.runner.provider == "claude-code" || i.runner.provider == "qwen-code"
        || i.runner.provider == "codex-code")
    && (i.runner.permissions == "" || i.runner.permissions == "trusted_full_access" || i.runner.permissions == "managed")
  }

  lemma IntentIsComplete(i: Intent)
    ensures IntentValid(i) <==> Complete(i)
  {
    hide Blank, Trim;
    if Complete(i) {
      assert forall x :: 0 <= x < |i.scope| ==> i.scope[x] in i.scope;
      assert forall x, k :: 0 <= x < |i.scope| && 0 <= k < |i.scope[x].paths| ==> i.scope[x].paths[k] in i.scope[x].paths;
    }
  }

  // ---------------------------------------------------------------- new tasks

  lemma CreatedJoins(h: History, t: Task)
    requires HistoryValid(h) && t.attempts == []
    ensures var g := h.(tasks := h.tasks + [t]);
            && (forall i :: 0 <= i < |g.attempts| ==> Represented(g.tasks, g.attempts[i]))
            && (forall i :: 0 <= i < |g.attempts| ==> ParentPresent(g.attempts, g.attempts[i]))
            && (forall i, n :: 0 <= i < |g.tasks| && 0 <= n < |g.tasks[i].attempts| ==>
                  Backed(g.attempts, g.tasks[i], g.tasks[i].attempts[n]))
  {
    var g := h.(tasks := h.tasks + [t]);
    assert forall i :: 0 <= i < |h.tasks| ==> g.tasks[i] == h.tasks[i];
    forall i | 0 <= i < |g.attempts|
      ensures Represented(g.tasks, g.attempts[i]) && ParentPresent(g.attempts, g.attempts[i])
    {
      var b := h.attempts[i];
      assert Represented(h.tasks, b) && ParentPresent(h.attempts, b);
      var x, y :| 0 <= x < |h.tasks| && 0 <= y < |h.tasks[x].attempts| && h.tasks[x].id == b.taskId && Describes(h.tasks[x].attempts[y], b);
      assert g.tasks[x].id == b.taskId && Describes(g.tasks[x].attempts[y], b);
    }
    forall i, n | 0 <= i < |g.tasks| && 0 <= n < |g.tasks[i].attempts|
      ensures Backed(g.attempts, g.tasks[i], g.tasks[i].attempts[n])
    {
      assert Backed(h.attempts, h.tasks[i], h.tasks[i].attempts[n]);
    }
  }

  lemma NewTaskFields(id: Id, intent: Intent, now: Time)
    ensures var t := NewTask(id, intent, now);
            && (TaskValid(t) <==> IsOpaqueId(id) && Complete(intent))
            && t.id == id && t.attempts == []
  {
    IntentIsComplete(intent);
    NotBlank("no attempt has completed");
    NotBlank("no publication has been recorded");
    hide IntentValid, Complete, IsOpaqueId, Blank;
  }

  // A new task says what the client asked for, at its first revision, open, now, and without
  // attempts, outcome or publication; the others are untouched.
  lemma CreateEffect(h: History, id: Id, intent: Intent, now: Time)
    ensures var t, r := NewTask(id, intent, now), Apply(h, CreateTask(NewTask(id, intent, now)));
            && t.id == id && t.intent == intent && t.lifecycle.Open? && t.revision == 1 && t.archivedAt.None? && t.attempts == []
            && t.createdAt == t.updatedAt == t.lastActivityAt == now && t.outcome.Unavailable? && t.publication.Unpublished?
            && r == Ok(History(h.tasks + [t], h.attempts))
  {
  }

  lemma CreatedTasks(ts: seq<Task>, t: Task)
    requires TasksValid(ts)
    ensures TasksValid(ts + [t]) <==> TaskValid(t) && forall i :: 0 <= i < |ts| ==> ts[i].id != t.id
  {
    var us := ts + [t];
    hide TaskValid;
    assert us[|ts|] == t && forall i :: 0 <= i < |ts| ==> us[i] == ts[i];
    if TaskValid(t) && forall i :: 0 <= i < |ts| ==> ts[i].id != t.id {
      forall i | 0 <= i < |us|
        ensures TaskValid(us[i])
      {
        assert i < |ts| ==> TaskValid(ts[i]);
      }
    }
  }

  // A new task is stored exactly when its id is well formed and new and its intent complete.
  lemma CreateAcceptedExactly(h: History, id: Id, intent: Intent, now: Time)
    requires HistoryValid(h)
    ensures Accepted(h, CreateTask(NewTask(id, intent, now)), true)
            <==> IsOpaqueId(id) && Complete(intent) && forall i :: 0 <= i < |h.tasks| ==> h.tasks[i].id != id
  {
    var t := NewTask(id, intent, now);
    NewTaskFields(id, intent, now);
    CreatedTasks(h.tasks, t);
    CreatedJoins(h, t);
    hide NewTask, TasksValid, AttemptsValid, Represented, ParentPresent, Backed, TaskValid, Complete, IsOpaqueId;
  }

  // ---------------------------------------------------------------- edits

  lemma EditedTasks(ts: seq<Task>, ti: nat, u: Task)
    requires TasksValid(ts) && ti < |ts| && u.id == ts[ti].id
    ensures TasksValid(ts[ti := u]) <==> TaskValid(u)
  {
    var us := ts[ti := u];
    hide TaskValid;
    assert us[ti] == u;
    if TaskValid(u) {
      forall i | 0 <= i < |us|
        ensures TaskValid(us[i])
      {
        assert i != ti ==> TaskValid(ts[i]);
      }
    }
  }

  lemma EditTail(h: History, ti: nat, u: Task)
    requires HistoryValid(h) && ti < |h.tasks| && u.id == h.tasks[ti].id && u.attempts == h.tasks[ti].attempts
    ensures HistoryValid(h.(tasks := h.tasks[ti := u])) <==> TaskValid(u)
  {
    EditedTasks(h.tasks, ti, u);
    ArchivedJoins(h, h.(tasks := h.tasks[ti := u]), ti);
    hide TasksValid, AttemptsValid, Represented, ParentPresent, Backed, TaskValid;
  }

  lemma ValidTask(h: History, ti: nat)
    requires HistoryValid(h) && ti < |h.tasks|
    ensures TaskValid(h.tasks[ti]) && FirstTask(h.tasks, h.tasks[ti].id) == ti
  {
    ValidShape(h);
    TaskAt(h, ti);
    hide TaskValid, Shape;
  }

  // An edit at the task's revision is stored exactly when what it makes of the intent is
  // complete and the task takes activity now.
  lemma EditAcceptedExactly(h: History, ti: nat, patch: Patch, now: Time)
    requires HistoryValid(h) && ti < |h.tasks| && !patch.Empty()
    ensures var t := h.tasks[ti];
            Accepted(h, PatchTask(t.id, t.revision, patch, now), true)
            <==> Complete(patch.Applied(t.intent)) && t.createdAt <= now && (t.archivedAt.None? || now <= t.archivedAt.value)
  {
    var t := h.tasks[ti];
    ValidTask(h, ti);
    IntentIsComplete(patch.Applied(t.intent));
    var u := PatchedTask(t, t.revision, patch, now).value;
    EditTail(h, ti, u);
    assert TaskValid(u) <==>
           IntentValid(patch.Applied(t.intent)) && t.createdAt <= now && (t.archivedAt.None? || now <= t.archivedAt.value) by {
      hide IntentValid, SummariesValid, OutcomeValid, PublicationValid, IsOpaqueId, Patch.Applied, HistoryValid;
    }
    hide TaskValid, HistoryValid, IntentValid, Complete, Patch.Applied, Patch.Empty;
  }

  // Archiving and unarchiving at the task's revision are stored whatever its attempts are doing.
  lemma ArchiveAcceptedExactly(h: History, ti: nat, archive: bool, now: Time)
    requires HistoryValid(h) && ti < |h.tasks|
    ensures Accepted(h, SetArchived(h.tasks[ti].id, h.tasks[ti].revision, archive, now), true) <==> h.tasks[ti].createdAt <= now
  {
    var t := h.tasks[ti];
    ValidTask(h, ti);
    var u := ArchivedTask(t, t.revision, archive, now).value;
    EditTail(h, ti, u);
    assert TaskValid(u) <==> t.createdAt <= now by {
      hide IntentValid, SummariesValid, OutcomeValid, PublicationValid, IsOpaqueId, HistoryValid;
    }
    hide TaskValid, HistoryValid;
  }

  // ---------------------------------------------------------------- admitted attempts

  // h with attempt a appended under task ti.
  function WithAttempt(h: History, ti: nat, a: Attempt): History
    requires ti < |h.tasks|
  {
    var t := h.tasks[ti];
    History(h.tasks[ti := t.(attempts := t.attempts + [SummaryOf(a)], lastActivityAt := a.admittedAt)], h.attempts + [a])
  }

  lemma AppendedAttempts(xs: seq<Attempt>, a: Attempt)
    requires AttemptsValid(xs) && forall i :: 0 <= i < |xs| ==> xs[i].id != a.id
    ensures AttemptsValid(xs + [a]) <==> AttemptValid(a)
  {
    var ys := xs + [a];
    hide AttemptValid;
    assert ys[|xs|] == a && forall i :: 0 <= i < |xs| ==> ys[i] == xs[i];
    if AttemptValid(a) {
      forall i | 0 <= i < |ys|
        ensures AttemptValid(ys[i])
      {
        assert i < |xs| ==> AttemptValid(xs[i]);
      }
    }
  }

  lemma AppendedJoins(h: History, ti: nat, a: Attempt)
    requires HistoryValid(h) && ti < |h.tasks| && h.tasks[ti].id == a.taskId
    requires a.parent.Some? ==> exists i :: 0 <= i < |h.attempts| && h.attempts[i].id == a.parent.value && h.attempts[i].taskId == a.taskId
    ensures var g := WithAttempt(h, ti, a);
            && (forall i :: 0 <= i < |g.attempts| ==> Represented(g.tasks, g.attempts[i]))
            && (forall i :: 0 <= i < |g.attempts| ==> ParentPresent(g.attempts, g.attempts[i]))
            && (forall i, n :: 0 <= i < |g.tasks| && 0 <= n < |g.tasks[i].attempts| ==>
                  Backed(g.attempts, g.tasks[i], g.tasks[i].attempts[n]))
  {
    var g := WithAttempt(h, ti, a);
    assert g.attempts[|h.attempts|] == a && forall i :: 0 <= i < |h.attempts| ==> g.attempts[i] == h.attempts[i];
    forall i | 0 <= i < |g.attempts|
      ensures Represented(g.tasks, g.attempts[i])
    {
      AppendedRepresented(h, ti, a, i);
    }
    forall i | 0 <= i < |g.attempts|
      ensures ParentPresent(g.attempts, g.attempts[i])
    {
      var b := g.attempts[i];
      if b.parent.Some? {
        assert i < |h.attempts| ==> ParentPresent(h.attempts, h.attempts[i]);
        var p :| 0 <= p < |h.attempts| && h.attempts[p].id == b.parent.value && h.attempts[p].taskId == b.taskId;
        assert g.attempts[p] == h.attempts[p];
      }
    }
    forall i, n | 0 <= i < |g.tasks| && 0 <= n < |g.tasks[i].attempts|
      ensures Backed(g.attempts, g.tasks[i], g.tasks[i].attempts[n])
    {
      AppendedBacked(h, ti, a, i, n);
    }
  }

  lemma AppendedRepresented(h: History, ti: nat, a: Attempt, i: nat)
    requires HistoryValid(h) && ti < |h.tasks| && h.tasks[ti].id == a.taskId && i <= |h.attempts|
    ensures Represented(WithAttempt(h, ti, a).tasks, WithAttempt(h, ti, a).attempts[i])
  {
    var g := WithAttempt(h, ti, a);
    if i < |h.attempts| {
      var b := h.attempts[i];
      assert Represented(h.tasks, b);
      var x, y :| 0 <= x < |h.tasks| && 0 <= y < |h.tasks[x].attempts| && h.tasks[x].id == b.taskId && Describes(h.tasks[x].attempts[y], b);
      assert g.tasks[x].id == b.taskId && g.tasks[x].attempts[y] == h.tasks[x].attempts[y];
    } else {
      var n := |h.tasks[ti].attempts|;
      assert g.tasks[ti].id == a.taskId && g.tasks[ti].attempts[n] == SummaryOf(a) && Describes(g.tasks[ti].attempts[n], a);
    }
  }

  lemma AppendedBacked(h: History, ti: nat, a: Attempt, i: nat, n: nat)
    requires HistoryValid(h) && ti < |h.tasks| && h.tasks[ti].id == a.taskId
    requires i < |h.tasks| && n < |WithAttempt(h, ti, a).tasks[i].attempts|
    ensures var g := WithAttempt(h, ti, a); Backed(g.attempts, g.tasks[i], g.tasks[i].attempts[n])
  {
    var g := WithAttempt(h, ti, a);
    if n < |h.tasks[i].attempts| {
      assert Backed(h.attempts, h.tasks[i], h.tasks[i].attempts[n]);
      var x :| 0 <= x < |h.attempts| && h.attempts[x].taskId == h.tasks[i].id && Describes(h.tasks[i].attempts[n], h.attempts[x]);
      assert g.attempts[x] == h.attempts[x] && g.tasks[i].attempts[n] == h.tasks[i].attempts[n];
    } else {
      assert g.attempts[|h.attempts|] == a && g.tasks[i].attempts[n] == SummaryOf(a);
    }
  }

  // A summary's attempt is stored, so a new attempt's id is new to every task too.
  lemma NewToSummaries(h: History, ti: nat, id: Id)
    requires HistoryValid(h) && ti < |h.tasks| && forall i :: 0 <= i < |h.attempts| ==> h.attempts[i].id != id
    ensures forall n :: 0 <= n < |h.tasks[ti].attempts| ==> h.tasks[ti].attempts[n].id != id
  {
    forall n | 0 <= n < |h.tasks[ti].attempts|
      ensures h.tasks[ti].attempts[n].id != id
    {
      assert Backed(h.attempts, h.tasks[ti], h.tasks[ti].attempts[n]);
    }
    hide TasksValid, AttemptsValid, Represented, ParentPresent;
  }

  lemma AppendedTask(t: Task, a: Attempt)
    requires TaskValid(t) && t.lifecycle.Open? && IsOpaqueId(a.id) && !Blank(a.runId) && a.revision >= 1
    requires forall n :: 0 <= n < |t.attempts| ==> t.attempts[n].id != a.id
    ensures TaskValid(t.(attempts := t.attempts + [SummaryOf(a)], lastActivityAt := a.admittedAt)) <==> t.updatedAt <= a.admittedAt
  {
    hide IsOpaqueId, Blank, IntentValid, OutcomeValid, PublicationValid;
    assert SummariesValid(t.attempts + [SummaryOf(a)]);
  }

  lemma AppendTail(h: History, ti: nat, a: Attempt)
    requires HistoryValid(h) && ti < |h.tasks| && h.tasks[ti].id == a.taskId && h.tasks[ti].lifecycle.Open?
    requires IsOpaqueId(a.id) && !Blank(a.runId) && a.revision >= 1 && forall i :: 0 <= i < |h.attempts| ==> h.attempts[i].id != a.id
    requires a.parent.Some? ==> exists i :: 0 <= i < |h.attempts| && h.attempts[i].id == a.parent.value && h.attempts[i].taskId == a.taskId
    ensures HistoryValid(WithAttempt(h, ti, a)) <==> AttemptValid(a) && h.tasks[ti].updatedAt <= a.admittedAt
  {
    ValidTask(h, ti);
    NewToSummaries(h, ti, a.id);
    AppendedTask(h.tasks[ti], a);
    EditedTasks(h.tasks, ti, WithAttempt(h, ti, a).tasks[ti]);
    AppendedAttempts(h.attempts, a);
    AppendedJoins(h, ti, a);
    hide TasksValid, AttemptsValid, Represented, ParentPresent, Backed, TaskValid, AttemptValid, IsOpaqueId, Blank;
  }

  lemma TrimmedOnce(s: string)
    ensures Blank(Trim(s)) <==> Blank(s)
  {
    var i, j := TrimIsExact(s);
    hide Trim;
    if Trim(s) == "" {
      assert Blank("") by {
        EmptyIsBlank();
      }
    } else {
      NotBlank(Trim(s));
    }
  }

  lemma EmptyIsBlank()
    ensures Blank("")
  {
  }

  lemma ReasonGiven(req: Request, reason: string)
    requires Reasoned(req, reason)
    ensures Blank(reason) <==> req.action.FirstStart?
  {
    EmptyIsBlank();
    TrimmedOnce(req.reason);
    NotBlank("operator_rerun");
    NotBlank("operator_retry");
    hide Blank, Trim;
  }

  lemma StartReasonsAreText()
    ensures !Blank("attempt has not completed") && !Blank("attempt has not been published")
  {
    NotBlank("attempt has not completed");
    NotBlank("attempt has not been published");
    hide Blank;
  }

  lemma BuiltTimes(t: Task, key: string, plan: Plan, attemptId: Id, runId: Id, now: Time)
    ensures var a := Built(t, key, plan, attemptId, runId, now);
            && AttemptTimesValid(a) && a.id == attemptId && a.taskId == t.id && a.runId == runId && a.key == key
            && a.parent == plan.parent && a.retryReason == plan.reason && a.pipeline == plan.pipeline
            && a.revision == t.revision && a.intent == t.intent && a.admittedAt == now
            && a.status.Queued? && a.finishedAt.None? && a.terminal.None?
            && a.outcome == Unavailable("attempt has not completed") && a.publication == Unpublished("attempt has not been published")
  {
  }

  lemma BuiltIsValid(t: Task, key: string, plan: Plan, attemptId: Id, runId: Id, now: Time)
    requires TaskValid(t) && IsOpaqueId(attemptId) && !Blank(runId) && (plan.pipeline == "init" || plan.pipeline == "refresh")
    requires if plan.parent.Some? then Trim(plan.parent.value) != attemptId && !Blank(plan.reason) else Blank(plan.reason)
    ensures AttemptValid(Built(t, key, plan, attemptId, runId, now)) <==> |key| <= 256
  {
    StartReasonsAreText();
    BuiltTimes(t, key, plan, attemptId, runId, now);
    hide Built, IsOpaqueId, Blank, IntentValid, SummariesValid, TaskTimesValid, AttemptTimesValid, Trim;
  }

  lemma AdmittedFacts(h: History, c: Coordination, session: Session, req: Request, attemptId: Id, runId: Id, now: Time)
    requires HistoryValid(h) && Decide(h, c, session, req).Admit?
    requires forall i :: 0 <= i < |h.attempts| ==> h.attempts[i].id != attemptId && Trim(h.attempts[i].id) != attemptId
    ensures var ti, plan := FirstTask(h.tasks, req.taskId), Decide(h, c, session, req).plan;
            && ti < |h.tasks| && h.tasks[ti].lifecycle.Open? && TaskValid(h.tasks[ti])
            && (plan.pipeline == "init" || plan.pipeline == "refresh")
            && (if plan.parent.Some? then Trim(plan.parent.value) != attemptId && !Blank(plan.reason) else Blank(plan.reason))
            && (plan.parent.Some? ==>
                  exists i :: 0 <= i < |h.attempts| && h.attempts[i].id == plan.parent.value && h.attempts[i].taskId == h.tasks[ti].id)
  {
    AdmittedPlan(h, c, session, req);
    AdmittedIsAdmissible(h, c, session, req, attemptId, runId, now);
    var ti, plan := FirstTask(h.tasks, req.taskId), Decide(h, c, session, req).plan;
    BuiltTimes(h.tasks[ti], Trim(req.key), plan, attemptId, runId, now);
    ValidTask(h, ti);
    ReasonGiven(req, plan.reason);
    hide Decide, HistoryValid, TaskValid, Trim, Blank, Prints, Reasoned, Built;
  }

  lemma AppendIs(h: History, ti: nat, a: Attempt)
    requires HistoryValid(h) && ti < |h.tasks| && forall i :: 0 <= i < |h.attempts| ==> h.attempts[i].id != a.id
    ensures Accepted(h, AppendAttempt(h.tasks[ti].id, a), true) <==> HistoryValid(WithAttempt(h, ti, a))
  {
    ValidTask(h, ti);
    assert Apply(h, AppendAttempt(h.tasks[ti].id, a)) == Ok(WithAttempt(h, ti, a));
    hide HistoryValid, TaskValid;
  }

  // The attempt of an admitted request is stored exactly when its key is no longer than 256
  // and the clock has reached the task's last edit.
  lemma AppendAcceptedExactly(h: History, c: Coordination, session: Session, req: Request, attemptId: Id, runId: Id, now: Time)
    requires HistoryValid(h) && Decide(h, c, session, req).Admit? && IsOpaqueId(attemptId) && !Blank(runId)
    requires forall i :: 0 <= i < |h.attempts| ==> h.attempts[i].id != attemptId && Trim(h.attempts[i].id) != attemptId
    ensures var t := h.tasks[FirstTask(h.tasks, req.taskId)];
            Accepted(h, AppendAttempt(t.id, Built(t, Trim(req.key), Decide(h, c, session, req).plan, attemptId, runId, now)), true)
            <==> |Trim(req.key)| <= 256 && t.updatedAt <= now
  {
    AdmittedFacts(h, c, session, req, attemptId, runId, now);
    var ti, plan := FirstTask(h.tasks, req.taskId), Decide(h, c, session, req).plan;
    var t := h.tasks[ti];
    assert t.revision >= 1 by {
      hide HistoryValid, Decide, Trim, Blank;
    }
    hide *;
    BuiltTimes(t, Trim(req.key), plan, attemptId, runId, now);
    BuiltIsValid(t, Trim(req.key), plan, attemptId, runId, now);
    var a := Built(t, Trim(req.key), plan, attemptId, runId, now);
    AppendIs(h, ti, a);
    AppendTail(h, ti, a);
  }

  // ---------------------------------------------------------------- every stored record

  lemma TaskIsComplete(t: Task)
    ensures TaskValid(t) <==>
            && IsOpaqueId(t.id) && Complete(t.intent) && t.revision >= 1
            && t.createdAt <= t.updatedAt <= t.lastActivityAt
            && (if t.lifecycle.Archived? then t.archivedAt.Some? && t.lastActivityAt <= t.archivedAt.value else t.archivedAt.None?)
            && (forall s :: s in t.attempts ==> IsOpaqueId(s.id) && !Blank(s.runId) && s.revision >= 1)
            && (forall x, y :: 0 <= x < y < |t.attempts| ==> t.attempts[x].id != t.attempts[y].id)
            && (if t.outcome.Available? then
                  IsOpaqueId(t.outcome.attemptId) && !Blank(t.outcome.runId) && !Blank(t.outcome.snapshotPath)
                else !Blank(t.outcome.reason))
            && (if t.publication.Linked? then IsOpaqueId(t.publication.attemptId) && Published(t.publication)
                else !Blank(t.publication.reason))
  {
    IntentIsComplete(t.intent);
    hide IntentValid, Complete, IsOpaqueId, Blank;
    if forall s :: s in t.attempts ==> IsOpaqueId(s.id) && !Blank(s.runId) && s.revision >= 1 {
      assert forall x :: 0 <= x < |t.attempts| ==> t.attempts[x] in t.attempts;
    }
  }

  // A publication of a known Git action that names its run, its branch, what it started
  // from and where it ended, with a digest of the inventory.
  predicate Published(p: Publication)
    requires p.Linked?
  {
    && (p.action == Commit || p.action == Branch || p.action == PullRequest)
    && (forall text :: text in {p.runId, p.branch, p.baseRef, p.baseOid, p.headOid, p.commit} ==> !Blank(text))
    && p.inventory.Sha256?
  }

  lemma AttemptIsComplete(a: Attempt)
    ensures AttemptValid(a) <==>
            && IsOpaqueId(a.id) && IsOpaqueId(a.taskId) && !Blank(a.runId) && Complete(a.intent)
            && (if a.parent.Some? then Trim(a.parent.value) != a.id && !Blank(a.retryReason) else Blank(a.retryReason))
            && (a.pipeline == "" || a.pipeline == "init" || a.pipeline == "refresh")
            && |a.key| <= 256 && a.revision >= 1
            && (if a.status.Queued? || a.status.Running? then a.finishedAt.None? && a.terminal.None?
                else a.finishedAt.Some? && a.terminal.Some? && a.terminal.value.status == a.status
                     && a.terminal.value.retained == a.retained)
            && InOrder([Some(a.admittedAt), a.queuedAt, a.startedAt, a.finishedAt])
            && (if a.outcome.Available? then !Blank(a.outcome.runId) && !Blank(a.outcome.snapshotPath) else !Blank(a.outcome.reason))
            && (if a.publication.Linked? then Published(a.publication) else !Blank(a.publication.reason))
  {
    IntentIsComplete(a.intent);
    TimesInOrder(a);
    hide IntentValid, Complete, IsOpaqueId, Blank, Trim, AttemptTimesValid, InOrder;
  }

  lemma TimesInOrder(a: Attempt)
    ensures AttemptTimesValid(a) <==> InOrder([Some(a.admittedAt), a.queuedAt, a.startedAt, a.finishedAt])
  {
    var ts := [Some(a.admittedAt), a.queuedAt, a.startedAt, a.finishedAt];
    if InOrder(ts) {
      assert ts[0] == Some(a.admittedAt) && ts[1] == a.queuedAt && ts[2] == a.startedAt && ts[3] == a.finishedAt;
    }
  }

  // The times that are known go up.
  predicate InOrder(times: seq<Option<Time>>) {
    forall x, y :: 0 <= x < y < |times| && times[x].Some? && times[y].Some? ==> times[x].value <= times[y].value
  }

  // In every reachable state every stored task is complete...
  lemma StoredTaskIsComplete(s: State, t: Task)
    requires Inv(s) && t in s.h.tasks
    ensures IsOpaqueId(t.id) && Complete(t.intent) && t.revision >= 1
    ensures t.createdAt <= t.updatedAt <= t.lastActivityAt
    ensures if t.lifecycle.Archived? then t.archivedAt.Some? && t.lastActivityAt <= t.archivedAt.value else t.archivedAt.None?
    ensures if t.outcome.Available? then !Blank(t.outcome.runId) && !Blank(t.outcome.snapshotPath) else !Blank(t.outcome.reason)
    ensures if t.publication.Linked? then Published(t.publication) else !Blank(t.publication.reason)
  {
    hide *;
    StoredIsValid(s);
    ValidTaskIn(s.h, t);
    TaskIsComplete(t);
  }

  // ... and so is every stored attempt, whose task is stored with it.
  lemma StoredAttemptIsComplete(s: State, a: Attempt)
    requires Inv(s) && a in s.h.attempts
    ensures IsOpaqueId(a.id) && !Blank(a.runId) && Complete(a.intent) && a.revision >= 1 && |a.key| <= 256
    ensures a.parent.Some? <==> !Blank(a.retryReason)
    ensures if a.status.Queued? || a.status.Running? then a.finishedAt.None? && a.terminal.None?
            else a.finishedAt.Some? && a.terminal.Some? && a.terminal.value.status == a.status
    ensures InOrder([Some(a.admittedAt), a.queuedAt, a.startedAt, a.finishedAt])
    ensures if a.outcome.Available? then !Blank(a.outcome.runId) && !Blank(a.outcome.snapshotPath) else !Blank(a.outcome.reason)
    ensures if a.publication.Linked? then Published(a.publication) else !Blank(a.publication.reason)
    ensures exists t :: t in s.h.tasks && t.id == a.taskId
  {
    hide *;
    StoredIsValid(s);
    ValidAttemptIn(s.h, a);
    AttemptIsComplete(a);
  }

  lemma StoredIsValid(s: State)
    requires Inv(s)
    ensures HistoryValid(s.h)
  {
    hide HistoryValid;
  }

  lemma ValidTaskIn(h: History, t: Task)
    requires HistoryValid(h) && t in h.tasks
    ensures TaskValid(t)
  {
    var i :| 0 <= i < |h.tasks| && h.tasks[i] == t;
    assert TaskValid(h.tasks[i]);
    hide TaskValid;
  }

  lemma ValidAttemptIn(h: History, a: Attempt)
    requires HistoryValid(h) && a in h.attempts
    ensures AttemptValid(a) && exists t :: t in h.tasks && t.id == a.taskId
  {
    var i :| 0 <= i < |h.attempts| && h.attempts[i] == a;
    assert AttemptValid(h.attempts[i]) && Represented(h.tasks, h.attempts[i]);
    var x, y :| 0 <= x < |h.tasks| && 0 <= y < |h.tasks[x].attempts| && h.tasks[x].id == a.taskId && Describes(h.tasks[x].attempts[y], a);
    assert h.tasks[x] in h.tasks;
    hide AttemptValid;
  }
}
