// Which updates the registry's validation lets through. Validation compares an
// archived task's archived_at with its last activity, so an update that stamps a
// later activity on an archived task is refused as a whole.
module Acceptance {
  import opened Wrappers
  import opened Text
  import opened TaskHistory
  import opened HistoryInvariants

  // The clock has reached the task's last edit, and the task reads as unarchived or as
  // archived no earlier than `now`.
  predicate ActivityFits(t: Task, now: Time) {
    t.updatedAt <= now && (t.archivedAt.None? || now <= t.archivedAt.value)
  }

  // ---------------------------------------------------------------- status updates

  lemma AdvancedTask(t: Task, a: Attempt, now: Time, o: Outcome)
    requires TaskValid(t) && OutcomeValid(o, true)
    ensures TaskValid(t.(attempts := MirroredSummaries(t.attempts, a, now), lastActivityAt := now, outcome := o))
            <==> ActivityFits(t, now)
  {
    var u := t.(attempts := MirroredSummaries(t.attempts, a, now), lastActivityAt := now, outcome := o);
    assert forall i :: 0 <= i < |t.attempts| ==>
        u.attempts[i].id == t.attempts[i].id && u.attempts[i].runId == t.attempts[i].runId
        && u.attempts[i].revision == t.attempts[i].revision;
    assert SummariesValid(u.attempts);
  }

  lemma AdvancedTasks(h: History, g: History, k: nat, a: Attempt, now: Time, o: Option<Outcome>, j: nat)
    requires TasksValid(h.tasks) && Advances(h, g, k, a, now, o)
    requires j < |h.tasks| && h.tasks[j].id == a.taskId
    requires o.Some? ==> OutcomeValid(o.value, true)
    ensures TasksValid(g.tasks) <==> ActivityFits(h.tasks[j], now)
  {
    assert TaskValid(h.tasks[j]);
    AdvancedTask(h.tasks[j], a, now, if o.Some? then o.value else h.tasks[j].outcome);
    if ActivityFits(h.tasks[j], now) {
      forall i | 0 <= i < |g.tasks|
        ensures TaskValid(g.tasks[i])
      {
        assert TaskValid(h.tasks[i]);
        if i != j {
          assert h.tasks[i].id != h.tasks[j].id;
        }
      }
    } else {
      assert !TaskValid(g.tasks[j]);
    }
  }

  lemma AdvancedAttempts(h: History, g: History, k: nat, a: Attempt, now: Time, o: Option<Outcome>)
    requires AttemptsValid(h.attempts) && Advances(h, g, k, a, now, o) && AttemptValid(a)
    ensures AttemptsValid(g.attempts)
  {
    forall i | 0 <= i < |g.attempts|
      ensures AttemptValid(g.attempts[i])
    {
      assert AttemptValid(h.attempts[i]);
    }
  }

  lemma AdvancedRepresented(h: History, g: History, k: nat, a: Attempt, now: Time, o: Option<Outcome>, i: nat)
    requires Advances(h, g, k, a, now, o) && i < |h.attempts| && Represented(h.tasks, h.attempts[i])
    requires forall x, y :: 0 <= x < y < |h.attempts| ==> h.attempts[x].id != h.attempts[y].id
    ensures Represented(g.tasks, g.attempts[i])
  {
    var b := h.attempts[i];
    var x, y :| 0 <= x < |h.tasks| && 0 <= y < |h.tasks[x].attempts| && h.tasks[x].id == b.taskId && Describes(h.tasks[x].attempts[y], b);
    assert Describes(g.tasks[x].attempts[y], g.attempts[i]);
  }

  lemma AdvancedParent(h: History, g: History, k: nat, a: Attempt, now: Time, o: Option<Outcome>, i: nat)
    requires Advances(h, g, k, a, now, o) && i < |h.attempts| && ParentPresent(h.attempts, h.attempts[i])
    ensures ParentPresent(g.attempts, g.attempts[i])
  {
    var b := h.attempts[i];
    if b.parent.Some? {
      var p :| 0 <= p < |h.attempts| && h.attempts[p].id == b.parent.value && h.attempts[p].taskId == b.taskId;
      assert g.attempts[p].id == b.parent.value && g.attempts[p].taskId == b.taskId;
    }
  }

  lemma AdvancedBacked(h: History, g: History, k: nat, a: Attempt, now: Time, o: Option<Outcome>, i: nat, n: nat)
    requires Advances(h, g, k, a, now, o) && i < |h.tasks| && n < |h.tasks[i].attempts|
    requires Backed(h.attempts, h.tasks[i], h.tasks[i].attempts[n])
    requires forall x, y :: 0 <= x < y < |h.attempts| ==> h.attempts[x].id != h.attempts[y].id
    ensures Backed(g.attempts, g.tasks[i], g.tasks[i].attempts[n])
  {
    var x :| 0 <= x < |h.attempts| && h.attempts[x].taskId == h.tasks[i].id && Describes(h.tasks[i].attempts[n], h.attempts[x]);
    assert g.attempts[x].taskId == g.tasks[i].id && Describes(g.tasks[i].attempts[n], g.attempts[x]);
  }

  lemma AdvancedJoins(h: History, g: History, k: nat, a: Attempt, now: Time, o: Option<Outcome>)
    requires HistoryValid(h) && Advances(h, g, k, a, now, o)
    ensures forall i :: 0 <= i < |g.attempts| ==> Represented(g.tasks, g.attempts[i])
    ensures forall i :: 0 <= i < |g.attempts| ==> ParentPresent(g.attempts, g.attempts[i])
    ensures forall i, n :: 0 <= i < |g.tasks| && 0 <= n < |g.tasks[i].attempts| ==> Backed(g.attempts, g.tasks[i], g.tasks[i].attempts[n])
  {
    forall i | 0 <= i < |g.attempts|
      ensures Represented(g.tasks, g.attempts[i]) && ParentPresent(g.attempts, g.attempts[i])
    {
      assert Represented(h.tasks, h.attempts[i]) && ParentPresent(h.attempts, h.attempts[i]);
      AdvancedRepresented(h, g, k, a, now, o, i);
      AdvancedParent(h, g, k, a, now, o, i);
    }
    forall i, n | 0 <= i < |g.tasks| && 0 <= n < |g.tasks[i].attempts|
      ensures Backed(g.attempts, g.tasks[i], g.tasks[i].attempts[n])
    {
      assert Backed(h.attempts, h.tasks[i], h.tasks[i].attempts[n]);
      AdvancedBacked(h, g, k, a, now, o, i, n);
    }
  }

  lemma AdvanceAccepted(h: History, g: History, k: nat, a: Attempt, now: Time, o: Option<Outcome>, j: nat)
    requires HistoryValid(h) && Advances(h, g, k, a, now, o)
    requires j < |h.tasks| && h.tasks[j].id == a.taskId
    requires o.Some? ==> OutcomeValid(o.value, true)
    ensures HistoryValid(g) <==> AttemptValid(a) && ActivityFits(h.tasks[j], now)
  {
    AdvancedTasks(h, g, k, a, now, o, j);
    if AttemptValid(a) {
      AdvancedAttempts(h, g, k, a, now, o);
    } else {
      assert !AttemptValid(g.attempts[k]);
    }
    AdvancedJoins(h, g, k, a, now, o);
    hide Advances, TasksValid, Represented, ParentPresent, Backed, AttemptValid, ActivityFits, OutcomeValid;
  }

  // The run started no earlier than the attempt was queued, and ended no earlier than it started.
  predicate RunTimesFit(a: Attempt, info: RunInfo) {
    var queued := if a.queuedAt.Some? then a.queuedAt.value else a.admittedAt;
    && (info.status.RunRunning? && a.startedAt.None? ==> queued <= info.startedAt)
    && (info.finishedAt.Some? ==> (if a.startedAt.Some? then a.startedAt.value else queued) <= info.finishedAt.value)
  }

  lemma ReasonsAreText(runId: Id)
    ensures !Blank(SnapshotPath(runId)) && !Blank(NoOutcome) && !Blank(LatestFailed)
  {
    NotBlank(SnapshotPath(runId));
    NotBlank(NoOutcome);
    NotBlank(LatestFailed);
    hide Trim;
  }

  lemma MirroredTimes(a: Attempt, info: RunInfo)
    requires AttemptTimesValid(a) && (a.status.Terminal() <==> a.finishedAt.Some?)
    requires InfoConsistent(info) && Forward(a, MirroredAttempt(a, info))
    ensures AttemptTimesValid(MirroredAttempt(a, info)) <==> RunTimesFit(a, info)
  {
  }

  lemma MirroredOutcome(a: Attempt, info: RunInfo)
    requires AttemptValid(a) && InfoConsistent(info)
    requires Forward(a, MirroredAttempt(a, info)) && !Blank(SnapshotPath(a.runId)) && !Blank(NoOutcome) && !Blank(LatestFailed)
    ensures OutcomeValid(MirroredAttempt(a, info).outcome, false)
    ensures var o := OutcomeFrom(MirroredAttempt(a, info)); o.Some? ==> OutcomeValid(o.value, true)
  {
    hide Trim, Blank, IsOpaqueId, PublicationValid, IntentValid, AttemptTimesValid, SnapshotPath;
  }

  // What a mirrored attempt keeps, and how it ends.
  lemma MirroredFields(a: Attempt, info: RunInfo)
    requires AttemptValid(a) && InfoConsistent(info) && Forward(a, MirroredAttempt(a, info))
    ensures var b := MirroredAttempt(a, info); SameIdentity(a, b) && Ends(b)
  {
    hide Trim, Blank, IsOpaqueId, PublicationValid, OutcomeValid, IntentValid, AttemptTimesValid, SnapshotPath;
  }

  // An attempt that has ended says how.
  predicate Ends(a: Attempt) {
    && (a.status.Terminal() <==> a.finishedAt.Some?)
    && (a.status.Terminal() ==> a.terminal.Some?)
    && (a.terminal.Some? ==>
          a.terminal.value.status.Terminal() && a.terminal.value.status == a.status && a.terminal.value.retained == a.retained)
  }

  lemma TimesDecide(a: Attempt, b: Attempt)
    requires AttemptValid(a) && SameIdentity(a, b) && Ends(b) && OutcomeValid(b.outcome, false)
    ensures AttemptValid(b) <==> AttemptTimesValid(b)
  {
    hide Trim, Blank, IsOpaqueId, PublicationValid, OutcomeValid, IntentValid, AttemptTimesValid;
  }

  lemma MirroredValid(a: Attempt, info: RunInfo)
    requires AttemptValid(a) && InfoConsistent(info) && Forward(a, MirroredAttempt(a, info))
    ensures AttemptValid(MirroredAttempt(a, info)) <==> RunTimesFit(a, info)
    ensures var o := OutcomeFrom(MirroredAttempt(a, info)); o.Some? ==> OutcomeValid(o.value, true)
  {
    ReasonsAreText(a.runId);
    MirroredTimes(a, info);
    MirroredOutcome(a, info);
    MirroredFields(a, info);
    hide *;
    TimesDecide(a, MirroredAttempt(a, info));
  }

  lemma MirrorApplies(h: History, info: RunInfo, now: Time, k: nat)
    requires HistoryValid(h) && InfoConsistent(info)
    requires k < |h.attempts| && ByRun(info.runId, info.attemptId).Matches(h.attempts[k])
    ensures var a := MirroredAttempt(h.attempts[k], info);
            && Mirrored(h, info, now).Ok? && Advances(h, Mirrored(h, info, now).value, k, a, now, OutcomeFrom(a))
            && a.taskId == h.attempts[k].taskId && AttemptValid(h.attempts[k])
  {
    ValidShape(h);
    AttemptAt(h, k);
    assert AttemptValid(h.attempts[k]);
    hide HistoryValid, AttemptValid, Shape, Advances;
    MirrorAdvances(h, info, now);
  }

  lemma MirrorIsPublished(h: History, info: RunInfo, now: Time)
    requires Mirrored(h, info, now).Ok?
    ensures Accepted(h, MirrorRun(info, now), true) <==> HistoryValid(Mirrored(h, info, now).value)
  {
    hide HistoryValid, Mirrored;
  }

  // A run's progress reaches the history exactly while its times are in order and its
  // task is not archived in the past: archiving a task with a live attempt stops its
  // mirroring.
  lemma MirrorAcceptedExactly(h: History, info: RunInfo, now: Time, k: nat, j: nat)
    requires HistoryValid(h) && InfoConsistent(info)
    requires k < |h.attempts| && ByRun(info.runId, info.attemptId).Matches(h.attempts[k])
    requires j < |h.tasks| && h.tasks[j].id == h.attempts[k].taskId
    requires Forward(h.attempts[k], MirroredAttempt(h.attempts[k], info))
    ensures Accepted(h, MirrorRun(info, now), true)
            <==> RunTimesFit(h.attempts[k], info) && ActivityFits(h.tasks[j], now)
  {
    hide *;
    MirrorApplies(h, info, now, k);
    MirrorIsPublished(h, info, now);
    MirroredValid(h.attempts[k], info);
    var a := MirroredAttempt(h.attempts[k], info);
    AdvanceAccepted(h, Mirrored(h, info, now).value, k, a, now, OutcomeFrom(a), j);
  }

  // The clock has reached every time the attempt carries.
  predicate StampedBy(a: Attempt, now: Time) {
    && a.admittedAt <= now && (a.queuedAt.Some? ==> a.queuedAt.value <= now)
    && (a.startedAt.Some? ==> a.startedAt.value <= now)
  }

  lemma MarkedTimes(a: Attempt, now: Time)
    requires AttemptTimesValid(a)
    ensures AttemptTimesValid(MarkedAttempt(a, now)) <==> StampedBy(a, now)
  {
  }

  lemma MarkedFields(a: Attempt, now: Time)
    requires AttemptValid(a) && !Blank(RunLost)
    ensures var b := MarkedAttempt(a, now); SameIdentity(a, b) && Ends(b) && OutcomeValid(b.outcome, false)
    ensures OutcomeValid(Unavailable(RunLost), true)
  {
    hide Trim, Blank, IsOpaqueId, PublicationValid, IntentValid, AttemptTimesValid;
  }

  lemma MarkedValid(a: Attempt, now: Time)
    requires AttemptValid(a)
    ensures AttemptValid(MarkedAttempt(a, now)) <==> StampedBy(a, now)
    ensures OutcomeValid(Unavailable(RunLost), true)
  {
    NotBlank(RunLost);
    MarkedTimes(a, now);
    MarkedFields(a, now);
    hide *;
    TimesDecide(a, MarkedAttempt(a, now));
  }

  lemma MarkApplies(h: History, now: Time, k: nat)
    requires HistoryValid(h) && k < |h.attempts|
    ensures var a := h.attempts[k];
            && Marked(h, a.taskId, a.id, now).Ok?
            && Advances(h, Marked(h, a.taskId, a.id, now).value, k, MarkedAttempt(a, now), now, Some(Unavailable(RunLost)))
            && MarkedAttempt(a, now).taskId == a.taskId && AttemptValid(a)
  {
    ValidShape(h);
    AttemptAt(h, k);
    assert AttemptValid(h.attempts[k]);
    hide HistoryValid, AttemptValid, Shape, Advances;
    MarkAdvances(h, h.attempts[k].taskId, h.attempts[k].id, now);
  }

  lemma MarkIsPublished(h: History, taskId: Id, id: Id, now: Time)
    requires Marked(h, taskId, id, now).Ok?
    ensures Accepted(h, MarkUnavailable(taskId, id, now), true) <==> HistoryValid(Marked(h, taskId, id, now).value)
  {
    hide HistoryValid, Marked;
  }

  // Restart reconciliation is refused in the same way.
  lemma MarkAcceptedExactly(h: History, now: Time, k: nat, j: nat)
    requires HistoryValid(h) && k < |h.attempts|
    requires j < |h.tasks| && h.tasks[j].id == h.attempts[k].taskId
    ensures Accepted(h, MarkUnavailable(h.attempts[k].taskId, h.attempts[k].id, now), true)
            <==> StampedBy(h.attempts[k], now) && ActivityFits(h.tasks[j], now)
  {
    hide *;
    var a := h.attempts[k];
    MarkApplies(h, now, k);
    MarkIsPublished(h, a.taskId, a.id, now);
    MarkedValid(a, now);
    AdvanceAccepted(h, Marked(h, a.taskId, a.id, now).value, k, MarkedAttempt(a, now), now, Some(Unavailable(RunLost)), j);
  }

  // ---------------------------------------------------------------- publications

  lemma LinkedJoins(h: History, g: History, ti: nat)
    requires HistoryValid(h) && Edits(h, g, ti)
    ensures forall i :: 0 <= i < |g.attempts| ==> Represented(g.tasks, g.attempts[i])
    ensures forall i :: 0 <= i < |g.attempts| ==> ParentPresent(g.attempts, g.attempts[i])
    ensures forall i, n :: 0 <= i < |g.tasks| && 0 <= n < |g.tasks[i].attempts| ==> Backed(g.attempts, g.tasks[i], g.tasks[i].attempts[n])
  {
    forall i | 0 <= i < |g.attempts|
      ensures Represented(g.tasks, g.attempts[i]) && ParentPresent(g.attempts, g.attempts[i])
    {
      var b := h.attempts[i];
      assert g.attempts[i].(publication := b.publication) == b;
      assert Represented(h.tasks, b) && ParentPresent(h.attempts, b);
      var x, y :| 0 <= x < |h.tasks| && 0 <= y < |h.tasks[x].attempts| && h.tasks[x].id == b.taskId && Describes(h.tasks[x].attempts[y], b);
      assert g.tasks[x].id == b.taskId && Describes(g.tasks[x].attempts[y], g.attempts[i]);
      if b.parent.Some? {
        var p :| 0 <= p < |h.attempts| && h.attempts[p].id == b.parent.value && h.attempts[p].taskId == b.taskId;
        assert g.attempts[p].(publication := h.attempts[p].publication) == h.attempts[p];
      }
    }
    forall i, n | 0 <= i < |g.tasks| && 0 <= n < |g.tasks[i].attempts|
      ensures Backed(g.attempts, g.tasks[i], g.tasks[i].attempts[n])
    {
      assert Backed(h.attempts, h.tasks[i], h.tasks[i].attempts[n]);
      var x :| 0 <= x < |h.attempts| && h.attempts[x].taskId == h.tasks[i].id && Describes(h.tasks[i].attempts[n], h.attempts[x]);
      assert g.attempts[x].(publication := h.attempts[x].publication) == h.attempts[x];
    }
  }

  lemma LinkedTasks(h: History, ti: nat, p: Publication, now: Time)
    requires TasksValid(h.tasks) && ti < |h.tasks| && PublicationValid(p, true)
    ensures TasksValid(h.tasks[ti := h.tasks[ti].(publication := p, lastActivityAt := now)])
            <==> ActivityFits(h.tasks[ti], now)
  {
    var us := h.tasks[ti := h.tasks[ti].(publication := p, lastActivityAt := now)];
    assert TaskValid(h.tasks[ti]);
    assert TaskValid(us[ti]) <==> ActivityFits(h.tasks[ti], now);
    if ActivityFits(h.tasks[ti], now) {
      forall i | 0 <= i < |us|
        ensures TaskValid(us[i])
      {
        assert TaskValid(h.tasks[i]);
      }
    }
  }

  lemma LinkedAttempts(xs: seq<Attempt>, k: nat, p: Publication)
    requires AttemptsValid(xs) && k < |xs| && PublicationValid(p, false)
    ensures AttemptsValid(xs[k := xs[k].(publication := p)])
  {
    var ys := xs[k := xs[k].(publication := p)];
    forall i | 0 <= i < |ys|
      ensures AttemptValid(ys[i])
    {
      assert AttemptValid(xs[i]);
    }
  }

  lemma LinkTail(h: History, ti: nat, k: nat, p: Publication, now: Time)
    requires HistoryValid(h) && ti < |h.tasks| && k < |h.attempts| && PublicationValid(p, true)
    ensures HistoryValid(History(h.tasks[ti := h.tasks[ti].(publication := p, lastActivityAt := now)],
                                 h.attempts[k := h.attempts[k].(publication := p)]))
            <==> ActivityFits(h.tasks[ti], now)
  {
    LinkedJoins(h, History(h.tasks[ti := h.tasks[ti].(publication := p, lastActivityAt := now)],
                           h.attempts[k := h.attempts[k].(publication := p)]), ti);
    LinkedTasks(h, ti, p, now);
    LinkedAttempts(h.attempts, k, p);
  }

  // A publication is linked exactly when its task could still record activity now.
  lemma LinkIsPublished(h: History, context: PublicationContext, p: Publication, now: Time)
    requires context.JoinedIn(h) && PublicationValid(p, true) && p.Linked?
    requires p.attemptId == context.attemptId && p.runId == Trim(context.runId)
    ensures var ti, k := FirstTask(h.tasks, context.taskId), FirstAttempt(h.attempts, ById(context.taskId, context.attemptId));
            && ti < |h.tasks| && k < |h.attempts|
            && (Accepted(h, LinkPublication(context, p, now), true)
                <==> HistoryValid(History(h.tasks[ti := h.tasks[ti].(publication := p, lastActivityAt := now)],
                                          h.attempts[k := h.attempts[k].(publication := p)])))
  {
    hide HistoryValid, Trim;
  }

  lemma LinkAcceptedExactly(h: History, context: PublicationContext, p: Publication, now: Time)
    requires HistoryValid(h) && context.JoinedIn(h) && PublicationValid(p, true) && p.Linked?
    requires p.attemptId == context.attemptId && p.runId == Trim(context.runId)
    ensures Accepted(h, LinkPublication(context, p, now), true)
            <==> ActivityFits(h.tasks[FirstTask(h.tasks, context.taskId)], now)
  {
    var ti, k := FirstTask(h.tasks, context.taskId), FirstAttempt(h.attempts, ById(context.taskId, context.attemptId));
    LinkIsPublished(h, context, p, now);
    hide *;
    LinkTail(h, ti, k, p, now);
  }

  // ---------------------------------------------------------------- archiving

  lemma ArchivedTasks(ts: seq<Task>, ti: nat, now: Time)
    requires TasksValid(ts) && ti < |ts| && ts[ti].createdAt <= now
    ensures var t := ArchivedTask(ts[ti], ts[ti].revision, true, now).value; TasksValid(ts[ti := t])
  {
    var us := ts[ti := ArchivedTask(ts[ti], ts[ti].revision, true, now).value];
    forall i | 0 <= i < |us|
      ensures TaskValid(us[i])
    {
      assert TaskValid(ts[i]);
    }
  }

  lemma ArchivedJoins(h: History, g: History, ti: nat)
    requires HistoryValid(h) && g.attempts == h.attempts && ti < |h.tasks| && |g.tasks| == |h.tasks|
    requires g.tasks[ti].id == h.tasks[ti].id && g.tasks[ti].attempts == h.tasks[ti].attempts
    requires forall i :: 0 <= i < |h.tasks| && i != ti ==> g.tasks[i] == h.tasks[i]
    ensures forall i :: 0 <= i < |g.attempts| ==> Represented(g.tasks, g.attempts[i])
    ensures forall i :: 0 <= i < |g.attempts| ==> ParentPresent(g.attempts, g.attempts[i])
    ensures forall i, n :: 0 <= i < |g.tasks| && 0 <= n < |g.tasks[i].attempts| ==> Backed(g.attempts, g.tasks[i], g.tasks[i].attempts[n])
  {
    forall i | 0 <= i < |g.attempts|
      ensures Represented(g.tasks, g.attempts[i]) && ParentPresent(g.attempts, g.attempts[i])
    {
      var b := h.attempts[i];
      assert Represented(h.tasks, b) && ParentPresent(h.attempts, b);
      var x, y :| 0 <= x < |h.tasks| && 0 <= y < |h.tasks[x].attempts| && h.tasks[x].id == b.taskId && Describes(h.tasks[x].attempts[y], b);
      assert g.tasks[x].id == b.taskId && Describes(g.tasks[x].attempts[y], b);
    }
    forall i, n | 0 <= i < |g.tasks| && 0 <= n < |g.tasks[i].attempts|
      ensures Backed(g.attempts, g.tasks[i], g.tasks[i].attempts[n])
    {
      assert Backed(h.attempts, h.tasks[i], h.tasks[i].attempts[n]);
    }
  }

  // Archiving at the current revision is accepted whatever the task's attempts are doing.
  lemma ArchivingIsAccepted(h: History, ti: nat, now: Time)
    requires HistoryValid(h) && ti < |h.tasks| && h.tasks[ti].createdAt <= now
    ensures Accepted(h, SetArchived(h.tasks[ti].id, h.tasks[ti].revision, true, now), true)
  {
    ValidShape(h);
    TaskAt(h, ti);
    ArchivedTasks(h.tasks, ti, now);
    var g := Apply(h, SetArchived(h.tasks[ti].id, h.tasks[ti].revision, true, now)).value;
    ArchivedJoins(h, g, ti);
    hide TasksValid, AttemptsValid, Represented, ParentPresent, Backed;
  }
}
