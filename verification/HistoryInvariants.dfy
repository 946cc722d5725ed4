// What every published history keeps: the per-task summaries mirror the attempts,
// lineage is a tree, keys are used once, at most one attempt is queued and every
// attempt carries the intent its task had at the admitted revision.
module HistoryInvariants {
  import opened Wrappers
  import opened Text
  import opened TaskHistory

  // ---------------------------------------------------------------- the two views

  datatype Key = Key(
    id: Id, runId: Id, parent: Option<Id>, revision: nat, status: AttemptStatus,
    admittedAt: Time, finishedAt: Option<Time>, retained: Evidence)

  function AttemptKey(a: Attempt): Key {
    Key(a.id, a.runId, a.parent, a.revision, a.status, a.admittedAt, a.finishedAt, a.retained)
  }

  function SummaryKey(s: Summary): Key {
    Key(s.id, s.runId, s.parent, s.revision, s.status, s.admittedAt, s.finishedAt, s.retained)
  }

  function Keys(ss: seq<Summary>): seq<Key> {
    seq(|ss|, i requires 0 <= i < |ss| => SummaryKey(ss[i]))
  }

  // The attempts of one task, in admission order.
  function Projection(xs: seq<Attempt>, taskId: Id): seq<Key> {
    if xs == [] then []
    else
      var last := xs[|xs| - 1];
      Projection(xs[..|xs| - 1], taskId) + if last.taskId == taskId then [AttemptKey(last)] else []
  }

  ghost predicate ViewsAgree(h: History) {
    forall i :: 0 <= i < |h.tasks| ==> Keys(h.tasks[i].attempts) == Projection(h.attempts, h.tasks[i].id)
  }

  ghost predicate OutcomeNamed(xs: seq<Attempt>, t: Task) {
    t.outcome.Available? ==>
      exists j :: 0 <= j < |xs| && xs[j].id == t.outcome.attemptId && xs[j].taskId == t.id
                  && xs[j].runId == t.outcome.runId && xs[j].status.Succeeded?
  }

  ghost predicate OutcomesNamed(h: History) {
    forall i {:trigger OutcomeNamed(h.attempts, h.tasks[i])} :: 0 <= i < |h.tasks| ==> OutcomeNamed(h.attempts, h.tasks[i])
  }

  // ---------------------------------------------------------------- lineage

  datatype ChildKind = Retry | Rerun {
    predicate Fits(parent: AttemptStatus) {
      match this
      case Retry => parent.Retryable()
      case Rerun => parent.Succeeded?
    }
  }

  // Ghost record of a run: the intent of each task revision, the action behind each child.
  datatype Log = Log(intents: map<(Id, nat), Intent>, kinds: map<Id, ChildKind>)

  ghost predicate ParentAt(xs: seq<Attempt>, j: nat, i: nat, kinds: map<Id, ChildKind>)
    requires j < |xs|
  {
    && i < j
    && xs[j].parent == Some(xs[i].id)
    && xs[i].taskId == xs[j].taskId
    && xs[j].id in kinds && kinds[xs[j].id].Fits(xs[i].status)
  }

  ghost predicate LineageAt(xs: seq<Attempt>, j: nat, kinds: map<Id, ChildKind>)
    requires j < |xs|
  {
    if xs[j].parent.None? then forall i :: 0 <= i < j ==> xs[i].taskId != xs[j].taskId
    else exists i :: 0 <= i < j && ParentAt(xs, j, i, kinds)
  }

  ghost predicate Lineage(xs: seq<Attempt>, kinds: map<Id, ChildKind>) {
    forall j :: 0 <= j < |xs| ==> LineageAt(xs, j, kinds)
  }

  // ---------------------------------------------------------------- keys, queue, intents

  ghost predicate KeysUsedOnce(xs: seq<Attempt>) {
    forall i, j :: 0 <= i < j < |xs| && xs[i].taskId == xs[j].taskId ==> xs[i].key != xs[j].key
  }

  ghost predicate OneQueued(xs: seq<Attempt>) {
    forall i, j :: 0 <= i < j < |xs| ==> !(xs[i].status.Queued? && xs[j].status.Queued?)
  }

  ghost predicate IntentsLogged(h: History, intents: map<(Id, nat), Intent>) {
    && (forall i :: 0 <= i < |h.attempts| ==>
          (h.attempts[i].taskId, h.attempts[i].revision) in intents
          && intents[(h.attempts[i].taskId, h.attempts[i].revision)] == h.attempts[i].intent)
    && (forall i :: 0 <= i < |h.tasks| ==>
          (h.tasks[i].id, h.tasks[i].revision) in intents
          && intents[(h.tasks[i].id, h.tasks[i].revision)] == h.tasks[i].intent)
  }

  ghost predicate EntryCurrent(h: History, e: (Id, nat)) {
    exists i :: 0 <= i < |h.tasks| && h.tasks[i].id == e.0 && e.1 <= h.tasks[i].revision
  }

  // The log has no entry beyond a task's current revision.
  ghost predicate LogCurrent(h: History, intents: map<(Id, nat), Intent>) {
    forall e {:trigger EntryCurrent(h, e)} :: e in intents ==> EntryCurrent(h, e)
  }

  // The part of HistoryValid the other invariants lean on.
  ghost predicate Shape(h: History) {
    && (forall i, j :: 0 <= i < j < |h.tasks| ==> h.tasks[i].id != h.tasks[j].id)
    && (forall i, j :: 0 <= i < j < |h.attempts| ==> h.attempts[i].id != h.attempts[j].id)
    && (forall i {:trigger SummariesDistinct(h.tasks[i])} :: 0 <= i < |h.tasks| ==> SummariesDistinct(h.tasks[i]))
    && (forall k {:trigger Represented(h.tasks, h.attempts[k])} :: 0 <= k < |h.attempts| ==> Represented(h.tasks, h.attempts[k]))
  }

  ghost predicate SummariesDistinct(t: Task) {
    forall i, j :: 0 <= i < j < |t.attempts| ==> t.attempts[i].id != t.attempts[j].id
  }

  lemma ValidShape(h: History)
    requires HistoryValid(h)
    ensures Shape(h)
  {
    forall i | 0 <= i < |h.tasks|
      ensures SummariesDistinct(h.tasks[i])
    {
      assert TaskValid(h.tasks[i]);
    }
  }

  ghost predicate Sound(h: History, log: Log) {
    HistoryValid(h) && Coherent(h, log)
  }

  ghost predicate Coherent(h: History, log: Log) {
    && Shape(h)
    && ViewsAgree(h)
    && OutcomesNamed(h)
    && Lineage(h.attempts, log.kinds)
    && KeysUsedOnce(h.attempts)
    && OneQueued(h.attempts)
    && IntentsLogged(h, log.intents)
    && LogCurrent(h, log.intents)
  }

  // ---------------------------------------------------------------- lookups on a valid history

  lemma TaskAt(h: History, i: nat)
    requires Shape(h) && i < |h.tasks|
    ensures FirstTask(h.tasks, h.tasks[i].id) == i
  {
  }

  lemma AttemptAt(h: History, k: nat)
    requires Shape(h) && k < |h.attempts|
    ensures var a := h.attempts[k];
            && FirstAttempt(h.attempts, ById(a.taskId, a.id)) == k
            && FirstAttempt(h.attempts, ByRun(a.runId, a.id)) == k
  {
    var a := h.attempts[k];
    forall q | q == ById(a.taskId, a.id) || q == ByRun(a.runId, a.id)
      ensures FirstAttempt(h.attempts, q) == k
    {
      assert q.Matches(h.attempts[k]);
    }
  }

  // ---------------------------------------------------------------- status updates

  predicate SameIdentity(a: Attempt, b: Attempt) {
    && a.id == b.id && a.taskId == b.taskId && a.runId == b.runId && a.parent == b.parent
    && a.pipeline == b.pipeline && a.key == b.key && a.fingerprint == b.fingerprint && a.revision == b.revision && a.intent == b.intent
    && a.admittedAt == b.admittedAt && a.queuedAt == b.queuedAt && a.retained == b.retained
    && a.retryReason == b.retryReason && a.publication == b.publication
  }

  // Statuses never fall back to Queued and a terminal attempt keeps its end.
  predicate Forward(a: Attempt, b: Attempt) {
    && (b.status.Queued? ==> a.status.Queued?)
    && (a.status.Terminal() ==> b.status == a.status && b.finishedAt == a.finishedAt)
  }

  // g is h with attempt k moved on to a, and its task told about it.
  ghost predicate Advances(h: History, g: History, k: nat, a: Attempt, now: Time, o: Option<Outcome>) {
    && k < |h.attempts|
    && SameIdentity(h.attempts[k], a)
    && g.attempts == h.attempts[k := a]
    && |g.tasks| == |h.tasks|
    && (forall i :: 0 <= i < |h.tasks| ==>
          g.tasks[i] ==
          if h.tasks[i].id != a.taskId then h.tasks[i]
          else
            h.tasks[i].(
              attempts := MirroredSummaries(h.tasks[i].attempts, a, now), lastActivityAt := now,
              outcome := if o.Some? then o.value else h.tasks[i].outcome))
    && (o.Some? && o.value.Available? ==>
          a.status.Succeeded? && o.value.attemptId == a.id && o.value.runId == a.runId)
  }

  function OutcomeFrom(a: Attempt): Option<Outcome> {
    if a.status.Succeeded? then Some(a.outcome)
    else if a.status.Terminal() then Some(Unavailable(LatestFailed))
    else None
  }

  lemma HasSummary(h: History, k: nat, i: nat)
    requires Shape(h) && k < |h.attempts| && i < |h.tasks| && h.tasks[i].id == h.attempts[k].taskId
    ensures FirstSummary(h.tasks[i].attempts, h.attempts[k].id) < |h.tasks[i].attempts|
  {
    var a := h.attempts[k];
    assert Represented(h.tasks, a);
    var x, y :| 0 <= x < |h.tasks| && 0 <= y < |h.tasks[x].attempts| && h.tasks[x].id == a.taskId
                && Describes(h.tasks[x].attempts[y], a);
    assert x == i;
  }

  predicate InfoConsistent(info: RunInfo) {
    info.status.Terminal() <==> info.finishedAt.Some?
  }

  lemma MirrorAdvances(h: History, info: RunInfo, now: Time)
    requires Shape(h) && InfoConsistent(info)
    requires Mirrored(h, info, now).Ok?
    ensures var k := FirstAttempt(h.attempts, ByRun(info.runId, info.attemptId));
            var a := MirroredAttempt(h.attempts[k], info);
            Advances(h, Mirrored(h, info, now).value, k, a, now, OutcomeFrom(a))
  {
    var k := FirstAttempt(h.attempts, ByRun(info.runId, info.attemptId));
    forall i | 0 <= i < |h.tasks| && h.tasks[i].id == h.attempts[k].taskId
      ensures FirstSummary(h.tasks[i].attempts, h.attempts[k].id) < |h.tasks[i].attempts|
    {
      HasSummary(h, k, i);
    }
  }

  lemma MarkAdvances(h: History, taskId: Id, id: Id, now: Time)
    requires Shape(h)
    requires Marked(h, taskId, id, now).Ok?
    ensures var k := FirstAttempt(h.attempts, ById(taskId, id));
            Advances(h, Marked(h, taskId, id, now).value, k, MarkedAttempt(h.attempts[k], now), now, Some(Unavailable(RunLost)))
  {
    var k := FirstAttempt(h.attempts, ById(taskId, id));
    var a := MarkedAttempt(h.attempts[k], now);
    var ti := FirstTaskWithSummary(h.tasks, taskId, id);
    forall i | 0 <= i < |h.tasks| && h.tasks[i].id == taskId
      ensures i == ti
      ensures MarkedTask(h.tasks[i], id, now).attempts == MirroredSummaries(h.tasks[i].attempts, a, now)
    {
      HasSummary(h, k, i);
      var si := FirstSummary(h.tasks[i].attempts, id);
      assert SummariesDistinct(h.tasks[i]);
      assert forall j :: 0 <= j < |h.tasks[i].attempts| && j != si ==> h.tasks[i].attempts[j].id != id;
    }
  }

  // Replacing an attempt replaces its key and no other.
  function Rekeyed(ks: seq<Key>, a: Attempt): seq<Key> {
    seq(|ks|, i requires 0 <= i < |ks| =>
      if ks[i].id == a.id then ks[i].(status := a.status, finishedAt := a.finishedAt) else ks[i])
  }

  lemma {:induction false} ProjectionOfUpdate(xs: seq<Attempt>, k: nat, a: Attempt, taskId: Id)
    requires k < |xs| && SameIdentity(xs[k], a)
    requires forall i, j :: 0 <= i < j < |xs| ==> xs[i].id != xs[j].id
    ensures Projection(xs[k := a], taskId) == Rekeyed(Projection(xs, taskId), a)
  {
    var init, last := xs[..|xs| - 1], xs[|xs| - 1];
    if k < |xs| - 1 {
      assert xs[k := a][..|xs| - 1] == init[k := a];
      ProjectionOfUpdate(init, k, a, taskId);
      assert last.id != a.id;
    } else {
      assert xs[k := a][..|xs| - 1] == init;
      ProjectionWithout(init, a, taskId);
    }
  }

  lemma {:induction false} ProjectionWithout(xs: seq<Attempt>, a: Attempt, taskId: Id)
    requires forall i :: 0 <= i < |xs| ==> xs[i].id != a.id
    ensures Rekeyed(Projection(xs, taskId), a) == Projection(xs, taskId)
    ensures forall j :: 0 <= j < |Projection(xs, taskId)| ==> Projection(xs, taskId)[j].id != a.id
  {
    if xs != [] {
      ProjectionWithout(xs[..|xs| - 1], a, taskId);
    }
  }

  lemma AdvanceKeepsViews(h: History, g: History, k: nat, a: Attempt, now: Time, o: Option<Outcome>)
    requires Shape(h) && ViewsAgree(h) && Advances(h, g, k, a, now, o)
    ensures ViewsAgree(g)
  {
    forall i | 0 <= i < |g.tasks|
      ensures Keys(g.tasks[i].attempts) == Projection(g.attempts, g.tasks[i].id)
    {
      var t := h.tasks[i];
      ProjectionOfUpdate(h.attempts, k, a, t.id);
      if t.id == a.taskId {
        assert Keys(MirroredSummaries(t.attempts, a, now)) == Rekeyed(Keys(t.attempts), a);
      } else {
        ProjectionOfOther(h.attempts, k, a, t.id);
      }
    }
  }

  lemma {:induction false} ProjectionOfOther(xs: seq<Attempt>, k: nat, a: Attempt, taskId: Id)
    requires k < |xs| && SameIdentity(xs[k], a) && a.taskId != taskId
    ensures Projection(xs[k := a], taskId) == Projection(xs, taskId)
  {
    var init := xs[..|xs| - 1];
    if k < |xs| - 1 {
      assert xs[k := a][..|xs| - 1] == init[k := a];
      ProjectionOfOther(init, k, a, taskId);
    } else {
      assert xs[k := a][..|xs| - 1] == init;
    }
  }

  lemma AdvanceKeepsOutcomes(h: History, g: History, k: nat, a: Attempt, now: Time, o: Option<Outcome>)
    requires OutcomesNamed(h) && Advances(h, g, k, a, now, o) && Forward(h.attempts[k], a)
    ensures OutcomesNamed(g)
  {
    forall i | 0 <= i < |g.tasks|
      ensures OutcomeNamed(g.attempts, g.tasks[i])
    {
      var t := g.tasks[i];
      if t.outcome.Available? {
        if t.id == a.taskId && o.Some? {
          assert g.attempts[k] == a;
        } else {
          assert OutcomeNamed(h.attempts, h.tasks[i]);
          var j :| 0 <= j < |h.attempts| && h.attempts[j].id == t.outcome.attemptId && h.attempts[j].taskId == t.id
                   && h.attempts[j].runId == t.outcome.runId && h.attempts[j].status.Succeeded?;
          assert g.attempts[j].status.Succeeded?;
        }
      }
    }
  }

  // Lineage depends only on identities and on the status of terminal attempts.
  lemma LineageCarries(xs: seq<Attempt>, ys: seq<Attempt>, kinds: map<Id, ChildKind>)
    requires Lineage(xs, kinds) && |ys| <= |xs|
    requires forall i :: 0 <= i < |ys| ==>
               ys[i].id == xs[i].id && ys[i].taskId == xs[i].taskId && ys[i].parent == xs[i].parent
               && (xs[i].status.Terminal() ==> ys[i].status == xs[i].status)
    ensures Lineage(ys, kinds)
  {
    forall j | 0 <= j < |ys|
      ensures LineageAt(ys, j, kinds)
    {
      assert LineageAt(xs, j, kinds);
      if xs[j].parent.Some? {
        var i :| 0 <= i < j && ParentAt(xs, j, i, kinds);
        assert ParentAt(ys, j, i, kinds);
      }
    }
  }

  // The log still speaks of every task when revisions do not fall.
  lemma LogCarries(h: History, g: History, intents: map<(Id, nat), Intent>)
    requires LogCurrent(h, intents) && |h.tasks| <= |g.tasks|
    requires forall i :: 0 <= i < |h.tasks| ==>
               g.tasks[i].id == h.tasks[i].id && h.tasks[i].revision <= g.tasks[i].revision
    ensures LogCurrent(g, intents)
  {
    forall e | e in intents
      ensures EntryCurrent(g, e)
    {
      assert EntryCurrent(h, e);
      var i :| 0 <= i < |h.tasks| && h.tasks[i].id == e.0 && e.1 <= h.tasks[i].revision;
      assert g.tasks[i].id == e.0 && e.1 <= g.tasks[i].revision;
    }
  }

  lemma AdvanceKeepsRest(h: History, g: History, k: nat, a: Attempt, now: Time, o: Option<Outcome>, log: Log)
    requires KeysUsedOnce(h.attempts) && OneQueued(h.attempts) && IntentsLogged(h, log.intents)
    requires Advances(h, g, k, a, now, o) && Forward(h.attempts[k], a)
    ensures KeysUsedOnce(g.attempts) && OneQueued(g.attempts) && IntentsLogged(g, log.intents)
  {
    assert forall i :: 0 <= i < |h.attempts| ==> SameIdentity(h.attempts[i], g.attempts[i]);
  }

  lemma AdvanceKeepsCoherent(h: History, g: History, k: nat, a: Attempt, now: Time, o: Option<Outcome>, log: Log)
    requires Coherent(h, log) && Advances(h, g, k, a, now, o) && Forward(h.attempts[k], a)
    requires Shape(g)
    ensures Coherent(g, log)
  {
    AdvanceKeepsViews(h, g, k, a, now, o);
    AdvanceKeepsOutcomes(h, g, k, a, now, o);
    LineageCarries(h.attempts, g.attempts, log.kinds);
    AdvanceKeepsRest(h, g, k, a, now, o, log);
    LogCarries(h, g, log.intents);
  }

  // ---------------------------------------------------------------- task edits and links

  // g is h with one task edited outside its id, summaries and outcome, and attempts
  // changed in nothing but their publication.
  ghost predicate Edits(h: History, g: History, ti: nat) {
    && ti < |h.tasks|
    && |g.tasks| == |h.tasks| && |g.attempts| == |h.attempts|
    && (forall i :: 0 <= i < |h.tasks| && i != ti ==> g.tasks[i] == h.tasks[i])
    && g.tasks[ti].id == h.tasks[ti].id && g.tasks[ti].attempts == h.tasks[ti].attempts
    && g.tasks[ti].outcome == h.tasks[ti].outcome
    && (forall i :: 0 <= i < |h.attempts| ==> g.attempts[i].(publication := h.attempts[i].publication) == h.attempts[i])
  }

  lemma {:induction false} ProjectionOfSame(xs: seq<Attempt>, ys: seq<Attempt>, taskId: Id)
    requires |xs| == |ys|
    requires forall i :: 0 <= i < |xs| ==> ys[i].(publication := xs[i].publication) == xs[i]
    ensures Projection(ys, taskId) == Projection(xs, taskId)
  {
    if xs != [] {
      ProjectionOfSame(xs[..|xs| - 1], ys[..|ys| - 1], taskId);
    }
  }

  lemma EditKeepsViews(h: History, g: History, ti: nat)
    requires ViewsAgree(h) && OutcomesNamed(h) && Edits(h, g, ti)
    ensures ViewsAgree(g) && OutcomesNamed(g)
  {
    forall i | 0 <= i < |g.tasks|
      ensures Keys(g.tasks[i].attempts) == Projection(g.attempts, g.tasks[i].id)
      ensures OutcomeNamed(g.attempts, g.tasks[i])
    {
      ProjectionOfSame(h.attempts, g.attempts, h.tasks[i].id);
      assert OutcomeNamed(h.attempts, h.tasks[i]);
      if h.tasks[i].outcome.Available? {
        var o := h.tasks[i].outcome;
        var j :| 0 <= j < |h.attempts| && h.attempts[j].id == o.attemptId && h.attempts[j].taskId == h.tasks[i].id
                 && h.attempts[j].runId == o.runId && h.attempts[j].status.Succeeded?;
        assert g.attempts[j].status.Succeeded?;
      }
    }
  }

  // The log after task ti of g, at its revision.
  function Logged(log: Log, t: Task): Log {
    log.(intents := log.intents[(t.id, t.revision) := t.intent])
  }

  lemma RevisionBound(h: History, log: Log, i: nat, j: nat)
    requires Shape(h) && IntentsLogged(h, log.intents) && LogCurrent(h, log.intents)
    requires i < |h.attempts| && j < |h.tasks| && h.attempts[i].taskId == h.tasks[j].id
    ensures h.attempts[i].revision <= h.tasks[j].revision
  {
    var e := (h.attempts[i].taskId, h.attempts[i].revision);
    assert EntryCurrent(h, e);
    var x :| 0 <= x < |h.tasks| && h.tasks[x].id == e.0 && e.1 <= h.tasks[x].revision;
    assert x == j;
  }

  ghost predicate RevisionStep(h: History, g: History, ti: nat)
    requires ti < |h.tasks| && ti < |g.tasks|
  {
    || (g.tasks[ti].revision == h.tasks[ti].revision && g.tasks[ti].intent == h.tasks[ti].intent)
    || g.tasks[ti].revision == h.tasks[ti].revision + 1
  }

  lemma EditKeepsLog(h: History, g: History, ti: nat, log: Log)
    requires Shape(h) && IntentsLogged(h, log.intents) && LogCurrent(h, log.intents)
    requires Edits(h, g, ti) && RevisionStep(h, g, ti)
    ensures IntentsLogged(g, Logged(log, g.tasks[ti]).intents) && LogCurrent(g, Logged(log, g.tasks[ti]).intents)
  {
    LogCarries(h, g, log.intents);
    var t, after := g.tasks[ti], Logged(log, g.tasks[ti]).intents;
    forall i | 0 <= i < |g.attempts|
      ensures (g.attempts[i].taskId, g.attempts[i].revision) in after
      ensures after[(g.attempts[i].taskId, g.attempts[i].revision)] == g.attempts[i].intent
    {
      var e := (h.attempts[i].taskId, h.attempts[i].revision);
      assert e in log.intents && log.intents[e] == h.attempts[i].intent;
      if e == (t.id, t.revision) {
        RevisionBound(h, log, i, ti);
        assert (h.tasks[ti].id, h.tasks[ti].revision) in log.intents;
      }
    }
  }

  lemma EditKeepsAttempts(h: History, g: History, ti: nat)
    requires Edits(h, g, ti) && KeysUsedOnce(h.attempts) && OneQueued(h.attempts)
    ensures KeysUsedOnce(g.attempts) && OneQueued(g.attempts)
  {
    assert forall i :: 0 <= i < |h.attempts| ==>
        g.attempts[i].taskId == h.attempts[i].taskId && g.attempts[i].key == h.attempts[i].key
        && g.attempts[i].status == h.attempts[i].status;
  }

  lemma EditKeepsCoherent(h: History, g: History, ti: nat, log: Log)
    requires Coherent(h, log) && Edits(h, g, ti) && RevisionStep(h, g, ti) && Shape(g)
    ensures Coherent(g, Logged(log, g.tasks[ti]))
  {
    EditKeepsViews(h, g, ti);
    EditKeepsLog(h, g, ti, log);
    EditKeepsAttempts(h, g, ti);
    LineageCarries(h.attempts, g.attempts, log.kinds);
  }

  // ---------------------------------------------------------------- creation, admission, rollback

  lemma NewTaskHasNoAttempts(h: History, g: History, t: Task)
    requires Shape(h) && Shape(g) && g == h.(tasks := h.tasks + [t])
    ensures forall i :: 0 <= i < |h.attempts| ==> h.attempts[i].taskId != t.id
  {
    assert g.tasks[|h.tasks|] == t;
    forall i | 0 <= i < |h.attempts|
      ensures h.attempts[i].taskId != t.id
    {
      assert Represented(h.tasks, h.attempts[i]);
      var x, y :| 0 <= x < |h.tasks| && 0 <= y < |h.tasks[x].attempts| && h.tasks[x].id == h.attempts[i].taskId
                  && Describes(h.tasks[x].attempts[y], h.attempts[i]);
      assert g.tasks[x].id != g.tasks[|h.tasks|].id;
    }
  }

  lemma CreateKeepsLog(h: History, g: History, t: Task, log: Log)
    requires Shape(g) && g == h.(tasks := h.tasks + [t])
    requires forall i :: 0 <= i < |h.attempts| ==> h.attempts[i].taskId != t.id
    requires IntentsLogged(h, log.intents) && LogCurrent(h, log.intents)
    ensures IntentsLogged(g, Logged(log, t).intents) && LogCurrent(g, Logged(log, t).intents)
  {
    assert g.tasks[|h.tasks|] == t;
    LogCarries(h, g, log.intents);
    var after := Logged(log, t).intents;
    forall i | 0 <= i < |g.tasks|
      ensures (g.tasks[i].id, g.tasks[i].revision) in after
      ensures after[(g.tasks[i].id, g.tasks[i].revision)] == g.tasks[i].intent
    {
      if i < |h.tasks| {
        assert g.tasks[i] == h.tasks[i] && g.tasks[i].id != g.tasks[|h.tasks|].id;
      }
    }
  }

  lemma CreateKeepsCoherent(h: History, g: History, t: Task, log: Log)
    requires Coherent(h, log) && t.attempts == [] && t.outcome.Unavailable?
    requires g == h.(tasks := h.tasks + [t]) && Shape(g)
    ensures Coherent(g, Logged(log, t))
  {
    NewTaskHasNoAttempts(h, g, t);
    CreateKeepsLog(h, g, t, log);
    NoProjection(h.attempts, t.id);
    forall i | 0 <= i < |g.tasks|
      ensures OutcomeNamed(g.attempts, g.tasks[i])
    {
      if i < |h.tasks| {
        assert g.tasks[i] == h.tasks[i];
        assert OutcomeNamed(h.attempts, h.tasks[i]);
      }
    }
  }

  lemma {:induction false} NoProjection(xs: seq<Attempt>, taskId: Id)
    requires forall i :: 0 <= i < |xs| ==> xs[i].taskId != taskId
    ensures Projection(xs, taskId) == []
  {
    if xs != [] {
      NoProjection(xs[..|xs| - 1], taskId);
    }
  }

  // What an admission has checked before it appends its attempt.
  ghost predicate Admissible(h: History, a: Attempt, kind: Option<ChildKind>) {
    && a.status.Queued? && a.finishedAt.None?
    && !Contains(h.attempts, ByKey(a.taskId, a.key))
    && (forall i :: 0 <= i < |h.attempts| ==> !h.attempts[i].status.Queued?)
    && (a.parent.None? <==> kind.None?)
    && (a.parent.None? ==> !TaskHasAttempts(h.attempts, a.taskId))
    && (a.parent.Some? ==>
          exists i :: 0 <= i < |h.attempts| && h.attempts[i].id == a.parent.value && h.attempts[i].taskId == a.taskId
                      && kind.value.Fits(h.attempts[i].status))
    && (exists i :: 0 <= i < |h.tasks| && h.tasks[i].id == a.taskId
                    && a.revision == h.tasks[i].revision && a.intent == h.tasks[i].intent)
  }

  function Admitted(log: Log, a: Attempt, kind: Option<ChildKind>): Log {
    if kind.None? then log else log.(kinds := log.kinds[a.id := kind.value])
  }

  lemma AppendKeepsLineage(h: History, a: Attempt, kind: Option<ChildKind>, log: Log)
    requires Lineage(h.attempts, log.kinds) && Admissible(h, a, kind)
    requires forall i :: 0 <= i < |h.attempts| ==> h.attempts[i].id != a.id
    ensures Lineage(h.attempts + [a], Admitted(log, a, kind).kinds)
  {
    var xs, ys, kinds := h.attempts, h.attempts + [a], Admitted(log, a, kind).kinds;
    forall j | 0 <= j < |ys|
      ensures LineageAt(ys, j, kinds)
    {
      if j < |xs| {
        assert LineageAt(xs, j, log.kinds);
        if xs[j].parent.Some? {
          var i :| 0 <= i < j && ParentAt(xs, j, i, log.kinds);
          assert ParentAt(ys, j, i, kinds);
        }
      } else if a.parent.Some? {
        var i :| 0 <= i < |xs| && xs[i].id == a.parent.value && xs[i].taskId == a.taskId && kind.value.Fits(xs[i].status);
        assert ParentAt(ys, j, i, kinds);
      }
    }
  }

  // An outcome stays named while the attempt it names is still there and succeeded.
  lemma OutcomeCarries(xs: seq<Attempt>, ys: seq<Attempt>, t: Task, u: Task)
    requires OutcomeNamed(xs, t) && u.outcome == t.outcome && u.id == t.id
    requires forall j :: 0 <= j < |xs| && xs[j].status.Succeeded? ==> j < |ys| && ys[j] == xs[j]
    ensures OutcomeNamed(ys, u)
  {
    if t.outcome.Available? {
      var o := t.outcome;
      var j :| 0 <= j < |xs| && xs[j].id == o.attemptId && xs[j].taskId == t.id && xs[j].runId == o.runId
               && xs[j].status.Succeeded?;
      assert ys[j].status.Succeeded?;
    }
  }

  lemma AppendKeepsViews(h: History, a: Attempt)
    requires Shape(h) && ViewsAgree(h) && OutcomesNamed(h) && a.finishedAt.None?
    requires Appended(h, a.taskId, a).Ok?
    ensures ViewsAgree(Appended(h, a.taskId, a).value) && OutcomesNamed(Appended(h, a.taskId, a).value)
  {
    var g := Appended(h, a.taskId, a).value;
    assert g.attempts[..|h.attempts|] == h.attempts;
    forall i | 0 <= i < |g.tasks|
      ensures Keys(g.tasks[i].attempts) == Projection(g.attempts, g.tasks[i].id)
      ensures OutcomeNamed(g.attempts, g.tasks[i])
    {
      TaskAt(h, i);
      assert Keys(h.tasks[i].attempts) == Projection(h.attempts, h.tasks[i].id);
      assert OutcomeNamed(h.attempts, h.tasks[i]);
      OutcomeCarries(h.attempts, g.attempts, h.tasks[i], g.tasks[i]);
    }
  }

  lemma AppendedShape(h: History, a: Attempt)
    requires Appended(h, a.taskId, a).Ok?
    ensures var g := Appended(h, a.taskId, a).value;
            && g.attempts == h.attempts + [a] && |g.tasks| == |h.tasks|
            && forall i :: 0 <= i < |h.tasks| ==>
                 g.tasks[i].id == h.tasks[i].id && g.tasks[i].revision == h.tasks[i].revision && g.tasks[i].intent == h.tasks[i].intent
  {
  }

  lemma OneMoreAttempt(xs: seq<Attempt>, a: Attempt)
    requires KeysUsedOnce(xs) && OneQueued(xs) && !Contains(xs, ByKey(a.taskId, a.key))
    requires forall i :: 0 <= i < |xs| ==> !xs[i].status.Queued?
    ensures KeysUsedOnce(xs + [a]) && OneQueued(xs + [a])
  {
    assert forall i :: 0 <= i < |xs| ==> !ByKey(a.taskId, a.key).Matches(xs[i]);
  }

  lemma OneMoreLogged(h: History, g: History, a: Attempt, intents: map<(Id, nat), Intent>)
    requires IntentsLogged(h, intents) && g.attempts == h.attempts + [a] && |g.tasks| == |h.tasks|
    requires forall i :: 0 <= i < |h.tasks| ==>
               g.tasks[i].id == h.tasks[i].id && g.tasks[i].revision == h.tasks[i].revision && g.tasks[i].intent == h.tasks[i].intent
    requires exists i :: 0 <= i < |h.tasks| && h.tasks[i].id == a.taskId
                         && a.revision == h.tasks[i].revision && a.intent == h.tasks[i].intent
    ensures IntentsLogged(g, intents)
  {
    var x :| 0 <= x < |h.tasks| && h.tasks[x].id == a.taskId && a.revision == h.tasks[x].revision && a.intent == h.tasks[x].intent;
    assert (h.tasks[x].id, h.tasks[x].revision) in intents;
    forall i | 0 <= i < |g.attempts|
      ensures var e := (g.attempts[i].taskId, g.attempts[i].revision); e in intents && intents[e] == g.attempts[i].intent
    {
      if i < |h.attempts| {
        assert g.attempts[i] == h.attempts[i];
      }
    }
  }

  lemma AppendKeepsRest(h: History, a: Attempt, kind: Option<ChildKind>, log: Log)
    requires KeysUsedOnce(h.attempts) && OneQueued(h.attempts) && IntentsLogged(h, log.intents)
    requires Admissible(h, a, kind) && Appended(h, a.taskId, a).Ok?
    ensures var g := Appended(h, a.taskId, a).value;
            KeysUsedOnce(g.attempts) && OneQueued(g.attempts) && IntentsLogged(g, log.intents)
  {
    AppendedShape(h, a);
    hide Appended, KeysUsedOnce, OneQueued, IntentsLogged, Contains;
    OneMoreAttempt(h.attempts, a);
    OneMoreLogged(h, Appended(h, a.taskId, a).value, a, log.intents);
  }

  lemma AppendKeepsCoherent(h: History, a: Attempt, kind: Option<ChildKind>, log: Log)
    requires Coherent(h, log) && Admissible(h, a, kind)
    requires Appended(h, a.taskId, a).Ok? && Shape(Appended(h, a.taskId, a).value)
    ensures Coherent(Appended(h, a.taskId, a).value, Admitted(log, a, kind))
  {
    var g := Appended(h, a.taskId, a).value;
    var n := |h.attempts|;
    forall i | 0 <= i < n
      ensures h.attempts[i].id != a.id
    {
      assert g.attempts[i].id != g.attempts[n].id;
    }
    AppendKeepsLineage(h, a, kind, log);
    AppendKeepsViews(h, a);
    AppendKeepsRest(h, a, kind, log);
    LogCarries(h, g, log.intents);
  }

  lemma {:induction false} WithoutAbsent(ss: seq<Summary>, id: Id)
    requires forall i :: 0 <= i < |ss| ==> ss[i].id != id
    ensures Without(ss, id) == ss
  {
    if ss != [] {
      WithoutAbsent(ss[..|ss| - 1], id);
    }
  }

  lemma RemoveLast(h: History, taskId: Id, id: Id, previous: Time)
    requires Shape(h) && ViewsAgree(h) && OutcomesNamed(h) && h.attempts != []
    requires var a := h.attempts[|h.attempts| - 1]; a.taskId == taskId && a.id == id && !a.status.Succeeded?
    ensures var g := Removed(h, taskId, id, previous);
            g.attempts == h.attempts[..|h.attempts| - 1] && ViewsAgree(g) && OutcomesNamed(g)
  {
    var g, n := Removed(h, taskId, id, previous), |h.attempts| - 1;
    AttemptAt(h, n);
    assert g.attempts == h.attempts[..n];
    forall i | 0 <= i < |h.tasks|
      ensures Keys(g.tasks[i].attempts) == Projection(g.attempts, g.tasks[i].id)
      ensures OutcomeNamed(g.attempts, g.tasks[i])
    {
      TaskAt(h, i);
      RemoveFromTask(h, h.tasks[i], id);
      assert OutcomeNamed(h.attempts, h.tasks[i]);
      OutcomeCarries(h.attempts, g.attempts, h.tasks[i], g.tasks[i]);
    }
  }

  lemma RemoveFromTask(h: History, t: Task, id: Id)
    requires h.attempts != [] && h.attempts[|h.attempts| - 1].id == id
    requires SummariesDistinct(t) && Keys(t.attempts) == Projection(h.attempts, t.id)
    ensures h.attempts[|h.attempts| - 1].taskId == t.id ==>
              Keys(Without(t.attempts, id)) == Projection(h.attempts[..|h.attempts| - 1], t.id)
    ensures h.attempts[|h.attempts| - 1].taskId != t.id ==>
              Keys(t.attempts) == Projection(h.attempts[..|h.attempts| - 1], t.id)
  {
    var n, m := |h.attempts| - 1, |t.attempts| - 1;
    if h.attempts[n].taskId == t.id {
      assert Keys(t.attempts)[m] == AttemptKey(h.attempts[n]);
      WithoutAbsent(t.attempts[..m], id);
      assert Keys(t.attempts[..m]) == Keys(t.attempts)[..m];
    }
  }

  // Rolling back the attempt admitted last.
  lemma RemoveKeepsCoherent(h: History, taskId: Id, id: Id, previous: Time, log: Log)
    requires Coherent(h, log) && h.attempts != []
    requires var a := h.attempts[|h.attempts| - 1]; a.taskId == taskId && a.id == id && a.status.Queued?
    requires Shape(Removed(h, taskId, id, previous))
    ensures Coherent(Removed(h, taskId, id, previous), log)
    ensures Removed(h, taskId, id, previous).attempts == h.attempts[..|h.attempts| - 1]
  {
    var g := Removed(h, taskId, id, previous);
    RemoveLast(h, taskId, id, previous);
    LineageCarries(h.attempts, g.attempts, log.kinds);
    LogCarries(h, g, log.intents);
  }
}
