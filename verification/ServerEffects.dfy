// What one registry update leaves of the history, and what that makes of an admission and
// of a restart.
module ServerEffects {
  import opened Wrappers
  import opened Text
  import opened TaskHistory
  import opened HistoryInvariants
  import opened HistoryEffects
  import opened Acceptance
  import opened Admission
  import opened Protocol

  // ---------------------------------------------------------------- one attempt at a time

  // Every attempt but k is as it was, and every task is as it was edited.
  predicate Elsewhere(h: History, g: History, k: nat) {
    && |g.attempts| == |h.attempts| && (forall i :: 0 <= i < |h.attempts| && i != k ==> g.attempts[i] == h.attempts[i])
    && |g.tasks| == |h.tasks|
    && forall j :: 0 <= j < |h.tasks| ==>
         g.tasks[j].id == h.tasks[j].id && g.tasks[j].updatedAt == h.tasks[j].updatedAt && g.tasks[j].archivedAt == h.tasks[j].archivedAt
  }

  // The attempt's task could record activity now.
  predicate TaskFits(h: History, taskId: Id, now: Time) {
    forall j :: 0 <= j < |h.tasks| && h.tasks[j].id == taskId ==> ActivityFits(h.tasks[j], now)
  }

  lemma TaskOfAttempt(h: History, k: nat) returns (j: nat)
    requires HistoryValid(h) && k < |h.attempts|
    ensures j < |h.tasks| && h.tasks[j].id == h.attempts[k].taskId
  {
    assert Represented(h.tasks, h.attempts[k]);
    var x, y :| 0 <= x < |h.tasks| && 0 <= y < |h.tasks[x].attempts| && h.tasks[x].id == h.attempts[k].taskId
                && Describes(h.tasks[x].attempts[y], h.attempts[k]);
    j := x;
  }

  // The attempt has failed, now, for want of its run.
  predicate Lost(a: Attempt, now: Time) {
    a.status.Failed? && a.finishedAt == Some(now) && a.terminal.Some? && a.terminal.value.errorCode == "run_reconciled_after_restart"
  }

  lemma MarkSettles(h: History, k: nat, now: Time, persisted: bool)
    requires HistoryValid(h) && k < |h.attempts|
    ensures var a, g := h.attempts[k], Publish(h, MarkUnavailable(h.attempts[k].taskId, h.attempts[k].id, now), persisted);
            && Elsewhere(h, g, k)
            && if persisted && StampedBy(a, now) && TaskFits(h, a.taskId, now) then Lost(g.attempts[k], now) else g == h
  {
    var a := h.attempts[k];
    var m := MarkUnavailable(a.taskId, a.id, now);
    ValidShape(h);
    var j := TaskOfAttempt(h, k);
    MarkAcceptedExactly(h, now, k, j);
    MarkEffect(h, now, k, j);
    assert TaskFits(h, a.taskId, now) <==> ActivityFits(h.tasks[j], now);
    PublishedOrNot(h, m, persisted);
    hide HistoryValid, Shape, StampedBy, ActivityFits, Apply;
  }

  // The attempt says what its run reported.
  predicate Mirrors(a: Attempt, info: RunInfo) {
    && Reads(a.status, info.status)
    && (info.status.RunRunning? ==> a.startedAt.Some?)
    && (info.finishedAt.Some? ==> a.finishedAt == info.finishedAt)
  }

  lemma BehindIsForward(a: Attempt, info: RunInfo)
    requires Behind(a, info) && (a.status.Queued? || a.status.Running?)
    ensures Forward(a, MirroredAttempt(a, info))
  {
  }

  lemma MirrorSettles(h: History, k: nat, info: RunInfo, now: Time, persisted: bool)
    requires HistoryValid(h) && k < |h.attempts| && InfoConsistent(info) && Behind(h.attempts[k], info)
    requires h.attempts[k].status.Queued? || h.attempts[k].status.Running?
    ensures var a := h.attempts[k];
            var g := if NeedsRunUpdate(h, info) then Publish(h, MirrorRun(info, now), persisted) else h;
            && Elsewhere(h, g, k)
            && if (persisted && RunTimesFit(a, info) && TaskFits(h, a.taskId, now)) || !NeedsRunUpdate(h, info)
               then Mirrors(g.attempts[k], info) else g == h
  {
    var a := h.attempts[k];
    var m := MirrorRun(info, now);
    ValidShape(h);
    var j := TaskOfAttempt(h, k);
    BehindIsForward(a, info);
    MirrorAcceptedExactly(h, info, now, k, j);
    MirrorEffect(h, info, now, k, j);
    NeedsExactly(h, info, k);
    assert TaskFits(h, a.taskId, now) <==> ActivityFits(h.tasks[j], now);
    PublishedOrNot(h, m, persisted);
    hide HistoryValid, Shape, RunTimesFit, ActivityFits, Apply, NeedsRunUpdate, Forward;
  }

  // ---------------------------------------------------------------- a restart

  // What a restart makes of attempt k, given whether its write lands: an ended attempt
  // stays, one whose run is unknown is lost, and one whose run is known says what it says.
  predicate Restored(h: History, g: History, runs: map<Id, RunInfo>, persisted: bool, now: Time, k: nat)
    requires k < |h.attempts| && k < |g.attempts|
  {
    var a, b := h.attempts[k], g.attempts[k];
    if !a.status.Queued? && !a.status.Running? then b == a
    else if a.runId !in runs then
      if persisted && StampedBy(a, now) && TaskFits(h, a.taskId, now) then Lost(b, now) else b == a
    else if persisted && RunTimesFit(a, runs[a.runId]) && TaskFits(h, a.taskId, now) then Mirrors(b, runs[a.runId]) else b == a
  }

  // Of the history h the attempts before i have been restored, and the others are untouched.
  ghost predicate Restoring(h: History, c: History, runs: map<Id, RunInfo>, persisted: nat -> bool, now: Time, i: nat) {
    && |c.attempts| == |h.attempts| && |c.tasks| == |h.tasks| && i <= |h.attempts|
    && (forall k: nat :: i <= k < |h.attempts| ==> c.attempts[k] == h.attempts[k])
    && (forall j :: 0 <= j < |h.tasks| ==>
          c.tasks[j].id == h.tasks[j].id && c.tasks[j].updatedAt == h.tasks[j].updatedAt && c.tasks[j].archivedAt == h.tasks[j].archivedAt)
    && (forall k: nat :: k < i ==> Restored(h, c, runs, persisted(k), now, k))
  }

  lemma NothingRestored(h: History, runs: map<Id, RunInfo>, persisted: nat -> bool, now: Time)
    ensures Restoring(h, h, runs, persisted, now, 0)
  {
  }

  lemma RestoreOther(h: History, c: History, g: History, runs: map<Id, RunInfo>, persisted: nat -> bool, now: Time, i: nat)
    requires Restoring(h, c, runs, persisted, now, i) && i < |h.attempts| && Elsewhere(c, g, i)
    requires Restored(h, g, runs, persisted(i), now, i)
    ensures Restoring(h, g, runs, persisted, now, i + 1)
  {
    forall k: nat | k < i + 1
      ensures Restored(h, g, runs, persisted(k), now, k)
    {
      assert k < i ==> Restored(h, c, runs, persisted(k), now, k) && g.attempts[k] == c.attempts[k];
    }
  }

  lemma SameFits(h: History, c: History, runs: map<Id, RunInfo>, persisted: nat -> bool, now: Time, i: nat, taskId: Id)
    requires Restoring(h, c, runs, persisted, now, i)
    ensures TaskFits(c, taskId, now) <==> TaskFits(h, taskId, now)
  {
    hide Restored;
    assert forall j :: 0 <= j < |h.tasks| ==> (ActivityFits(c.tasks[j], now) <==> ActivityFits(h.tasks[j], now));
    hide ActivityFits;
  }

  lemma RestoreEnded(h: History, c: History, runs: map<Id, RunInfo>, persisted: nat -> bool, now: Time, i: nat)
    requires Restoring(h, c, runs, persisted, now, i) && i < |h.attempts|
    requires !h.attempts[i].status.Queued? && !h.attempts[i].status.Running?
    ensures Restoring(h, c, runs, persisted, now, i + 1)
  {
    RestoreOther(h, c, c, runs, persisted, now, i);
  }

  lemma RestoreLost(h: History, c: History, runs: map<Id, RunInfo>, persisted: nat -> bool, now: Time, i: nat)
    requires Restoring(h, c, runs, persisted, now, i) && HistoryValid(c) && i < |h.attempts|
    requires (h.attempts[i].status.Queued? || h.attempts[i].status.Running?) && h.attempts[i].runId !in runs
    ensures var a := h.attempts[i];
            Restoring(h, Publish(c, MarkUnavailable(a.taskId, a.id, now), persisted(i)), runs, persisted, now, i + 1)
  {
    var a := h.attempts[i];
    assert c.attempts[i] == a;
    MarkSettles(c, i, now, persisted(i));
    SameFits(h, c, runs, persisted, now, i, a.taskId);
    hide HistoryValid, Publish, TaskFits, StampedBy, Lost, Elsewhere, Restoring, RunTimesFit, Mirrors;
    RestoreOther(h, c, Publish(c, MarkUnavailable(a.taskId, a.id, now), persisted(i)), runs, persisted, now, i);
  }

  lemma RestoreKnown(h: History, c: History, runs: map<Id, RunInfo>, persisted: nat -> bool, now: Time, i: nat)
    requires Restoring(h, c, runs, persisted, now, i) && HistoryValid(c) && i < |h.attempts|
    requires (h.attempts[i].status.Queued? || h.attempts[i].status.Running?) && h.attempts[i].runId in runs
    requires var info := runs[h.attempts[i].runId]; InfoConsistent(info) && Behind(h.attempts[i], info)
    ensures var info := runs[h.attempts[i].runId];
            var g := if NeedsRunUpdate(c, info) then Publish(c, MirrorRun(info, now), persisted(i)) else c;
            Restoring(h, g, runs, persisted, now, i + 1)
  {
    var a, info := h.attempts[i], runs[h.attempts[i].runId];
    assert c.attempts[i] == a;
    MirrorSettles(c, i, info, now, persisted(i));
    SameFits(h, c, runs, persisted, now, i, a.taskId);
    var g := if NeedsRunUpdate(c, info) then Publish(c, MirrorRun(info, now), persisted(i)) else c;
    hide HistoryValid, Publish, NeedsRunUpdate, TaskFits, StampedBy, Lost, Elsewhere, Restoring, RunTimesFit, Mirrors;
    hide Behind, InfoConsistent;
    RestoreOther(h, c, g, runs, persisted, now, i);
  }

  // What the invariant knows of a stored attempt whose run is known.
  lemma KnownRunIsAhead(s: State, i: nat)
    requires Inv(s) && i < |s.h.attempts| && s.h.attempts[i].runId in s.runs
    ensures var info := s.runs[s.h.attempts[i].runId]; InfoConsistent(info) && Behind(s.h.attempts[i], info)
  {
    assert AttemptOk(s.runs, s.used, s.h.attempts[i]);
    hide HistoryValid, Behind, InfoConsistent;
  }

  // ---------------------------------------------------------------- an admission

  // g is h with attempt a last: as admitted, or as its run reported.
  predicate Landed(h: History, g: History, a: Attempt, info: RunInfo) {
    && |g.attempts| == |h.attempts| + 1 && g.attempts[..|h.attempts|] == h.attempts
    && var b := g.attempts[|h.attempts|];
       b == a || AttemptTold(a, b, info)
  }

  lemma AppendedLands(h: History, a: Attempt, info: RunInfo)
    requires Apply(h, AppendAttempt(a.taskId, a)).Ok?
    ensures Landed(h, Apply(h, AppendAttempt(a.taskId, a)).value, a, info)
  {
    var g := Apply(h, AppendAttempt(a.taskId, a)).value;
    assert g.attempts == h.attempts + [a];
  }

  lemma MirroredLands(h: History, c: History, a: Attempt, info: RunInfo, now: Time, persisted: bool)
    requires HistoryValid(c) && c.attempts == h.attempts + [a] && InfoConsistent(info) && info.runId == a.runId && info.attemptId == a.id
    ensures Landed(h, Publish(c, MirrorRun(info, now), persisted), a, info)
  {
    var n := |h.attempts|;
    var g := Publish(c, MirrorRun(info, now), persisted);
    assert c.attempts[n] == a && c.attempts[..n] == h.attempts;
    PublishedOrNot(c, MirrorRun(info, now), persisted);
    if g != c {
      ValidShape(c);
      var j := TaskOfAttempt(c, n);
      MirrorEffect(c, info, now, n, j);
      hide HistoryValid, Shape, Apply;
      assert forall i :: 0 <= i < n ==> g.attempts[i] == c.attempts[i];
      assert g.attempts[..n] == h.attempts;
    }
  }

  // A fresh id is new to the history and to its tasks.
  lemma FreshIsNew(s: State, ti: nat, a: Attempt)
    requires Inv(s) && a.id !in s.used && ti < |s.h.tasks| && s.h.tasks[ti].id == a.taskId
    ensures NewTo(s.h, a, ti)
  {
    var h := s.h;
    assert HistoryValid(h);
    ValidShape(h);
    forall i | 0 <= i < |h.attempts|
      ensures h.attempts[i].id != a.id
    {
      assert AttemptOk(s.runs, s.used, h.attempts[i]);
    }
    forall k | 0 <= k < |h.tasks[ti].attempts|
      ensures h.tasks[ti].attempts[k].id != a.id
    {
      assert Backed(h.attempts, h.tasks[ti], h.tasks[ti].attempts[k]);
    }
  }
}
