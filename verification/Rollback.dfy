// Taking back an attempt whose run did not start: validation never stands in the way, and
// what the reset activity time does to a client paging through the task list.
module Rollback {
  import opened Wrappers
  import opened Text
  import opened TaskHistory
  import opened HistoryInvariants
  import opened Admission
  import opened Protocol
  import opened ProtocolInvariant
  import opened ProtocolRuns
  import opened ProtocolResults
  import opened Pagination

  // ---------------------------------------------------------------- what the lease protects

  // The task can go back to this activity time: it is open and was last edited before it.
  predicate Resumable(h: History, taskId: Id, previous: Time) {
    forall j :: 0 <= j < |h.tasks| && h.tasks[j].id == taskId ==> h.tasks[j].lifecycle.Open? && h.tasks[j].updatedAt <= previous
  }

  predicate LeaseOk(s: State) {
    match s.handler
    case Checked(a, _, previous) => Resumable(s.h, a.taskId, previous)
    case Pending(a, _, previous) => Resumable(s.h, a.taskId, previous)
    case _ => true
  }

  // Only an edit or an archive touches these fields of a task.
  predicate TasksUnedited(h: History, g: History) {
    && |g.tasks| == |h.tasks|
    && forall j :: 0 <= j < |h.tasks| ==>
         g.tasks[j].id == h.tasks[j].id && g.tasks[j].lifecycle == h.tasks[j].lifecycle && g.tasks[j].updatedAt == h.tasks[j].updatedAt
  }

  lemma RunUpdatesLeaveTasksUnedited(h: History, m: Mutation, persisted: bool)
    requires m.MirrorRun? || m.AppendAttempt?
    ensures TasksUnedited(h, Publish(h, m, persisted))
  {
    hide HistoryValid, FirstSummary, FirstAttempt, MirroredAttempt, Contains;
  }

  lemma UneditedIsResumable(h: History, g: History, taskId: Id, previous: Time)
    requires Resumable(h, taskId, previous) && TasksUnedited(h, g)
    ensures Resumable(g, taskId, previous)
  {
  }

  lemma OpenIsResumable(h: History, ti: nat)
    requires HistoryValid(h) && ti < |h.tasks| && h.tasks[ti].lifecycle.Open?
    ensures Resumable(h, h.tasks[ti].id, h.tasks[ti].lastActivityAt)
  {
    assert TaskValid(h.tasks[ti]);
    ValidShape(h);
    hide HistoryValid;
    assert forall j :: 0 <= j < |h.tasks| && j != ti ==> h.tasks[j].id != h.tasks[ti].id;
  }

  lemma CheckedLease(s: State)
    requires s.handler.Checked? && Resumable(s.h, s.handler.attempt.taskId, s.handler.previous)
    ensures LeaseOk(s)
  {
    hide Resumable;
  }

  lemma CheckedIsResumable(s: State, step: Step)
    requires HistoryValid(s.h) && step.Check? && Next(s, step).Some?
    ensures LeaseOk(Next(s, step).value)
  {
    hide *;
    CheckedState(s, step);
    AdmittedIsAdmissible(s.h, step.c, step.session, step.req, step.attemptId, step.runId, s.clock);
    OpenIsResumable(s.h, FirstTask(s.h.tasks, step.req.taskId));
    CheckedLease(Next(s, step).value);
  }

  lemma LeaseMeansRecovered(s: State)
    requires Inv(s) && (s.handler.Checked? || s.handler.Pending?)
    ensures s.todo == [] && s.recovery.Resting?
  {
    hide Sound, WatchersOk, AttemptsOk, TodoOk, FoundOk, Answers, Admissible;
  }

  // While a request holds the lease, only its append and the watchers change the history.
  lemma Unedited(h: History)
    ensures TasksUnedited(h, h)
  {
  }

  lemma HoldsKeepsRest(s: State, w: nat)
    requires w in s.watchers
    ensures Holds(s, w, Waiting).handler == s.handler && Holds(s, w, Waiting).h == s.h
  {
  }

  lemma LeaseKept(s: State, step: Step)
    requires Next(s, step).Some? && !step.Check? && !step.Append? && !step.WatchWrites?
    requires s.handler.Checked? || s.handler.Pending? ==> s.todo == [] && s.recovery.Resting?
    requires var t := Next(s, step).value; t.handler.Checked? || t.handler.Pending?
    ensures Next(s, step).value.handler == s.handler && Next(s, step).value.h == s.h
  {
    if Quiet(step) {
      QuietStep(s, step);
    }
    hide Publish, Accepted, NeedsRunUpdate, Leftovers, InfoConsistent, Reached, NewTask, Logged, Quiet;
  }

  lemma LeasedChange(s: State, step: Step)
    requires Next(s, step).Some? && !step.Check?
    requires s.handler.Checked? || s.handler.Pending? ==> s.todo == [] && s.recovery.Resting?
    requires var t := Next(s, step).value; t.handler.Checked? || t.handler.Pending?
    ensures var t := Next(s, step).value;
            && (s.handler.Checked? || s.handler.Pending?)
            && t.handler.attempt == s.handler.attempt && t.handler.previous == s.handler.previous
            && TasksUnedited(s.h, t.h)
  {
    hide *;
    Unedited(s.h);
    if step.Append? {
      AppendedState(s, step.persisted);
      RunUpdatesLeaveTasksUnedited(s.h, AppendAttempt(s.handler.attempt.taskId, s.handler.attempt), step.persisted);
    } else if step.WatchWrites? {
      WroteState(s, step.w, step.persisted);
      HoldsKeepsRest(s, step.w);
      RunUpdatesLeaveTasksUnedited(s.h, MirrorRun(s.watchers[step.w].local.info, s.clock), step.persisted);
    } else {
      LeaseKept(s, step);
    }
  }

  lemma StepKeepsLease(s: State, step: Step)
    requires Inv(s) && LeaseOk(s) && Next(s, step).Some?
    ensures LeaseOk(Next(s, step).value)
  {
    var t := Next(s, step).value;
    assert HistoryValid(s.h);
    if s.handler.Checked? || s.handler.Pending? {
      LeaseMeansRecovered(s);
    }
    hide Inv, Next, HistoryValid, Resumable;
    if t.handler.Checked? || t.handler.Pending? {
      if step.Check? {
        CheckedIsResumable(s, step);
      } else {
        LeasedChange(s, step);
        UneditedIsResumable(s.h, t.h, t.handler.attempt.taskId, t.handler.previous);
      }
    }
  }

  lemma {:induction false} RunKeepsLease(s: State, steps: seq<Step>)
    requires Inv(s) && LeaseOk(s) && After(s, steps).Some?
    ensures Inv(After(s, steps).value) && LeaseOk(After(s, steps).value)
  {
    RunKeepsInv(s, steps);
    hide Inv, Next, LeaseOk;
    if steps != [] {
      RunKeepsLease(s, steps[..|steps| - 1]);
      StepKeepsLease(After(s, steps[..|steps| - 1]).value, steps[|steps| - 1]);
    }
  }

  // ---------------------------------------------------------------- the removal validates

  // The attempt admitted last is its task's last summary.
  lemma LastSummary(h: History, ti: nat)
    requires Shape(h) && ViewsAgree(h) && h.attempts != [] && ti < |h.tasks|
    requires h.tasks[ti].id == h.attempts[|h.attempts| - 1].taskId
    ensures var t, id := h.tasks[ti], h.attempts[|h.attempts| - 1].id;
            && t.attempts != [] && t.attempts[|t.attempts| - 1].id == id
            && Without(t.attempts, id) == t.attempts[..|t.attempts| - 1]
  {
    var t, last := h.tasks[ti], h.attempts[|h.attempts| - 1];
    var m := |t.attempts| - 1;
    assert Keys(t.attempts) == Projection(h.attempts, t.id);
    assert Keys(t.attempts)[m] == AttemptKey(last);
    assert SummariesDistinct(t);
    WithoutAbsent(t.attempts[..m], last.id);
  }

  // h without its last attempt a and a's summary, its task back at `previous`.
  ghost predicate TakenBack(h: History, g: History, ti: nat, previous: Time) {
    && h.attempts != [] && g.attempts == h.attempts[..|h.attempts| - 1]
    && ti < |h.tasks| && h.tasks[ti].id == h.attempts[|h.attempts| - 1].taskId
    && h.tasks[ti].attempts != [] && h.tasks[ti].attempts[|h.tasks[ti].attempts| - 1].id == h.attempts[|h.attempts| - 1].id
    && g.tasks == h.tasks[ti := h.tasks[ti].(attempts := h.tasks[ti].attempts[..|h.tasks[ti].attempts| - 1], lastActivityAt := previous)]
  }

  lemma RemovalTakesBack(h: History, a: Attempt, previous: Time) returns (ti: nat)
    requires Shape(h) && ViewsAgree(h) && IsLast(h.attempts, a)
    ensures TakenBack(h, Removed(h, a.taskId, a.id, previous), ti, previous)
  {
    var n := |h.attempts| - 1;
    AttemptAt(h, n);
    assert Represented(h.tasks, h.attempts[n]);
    ti := FirstTask(h.tasks, a.taskId);
    LastSummary(h, ti);
    hide ViewsAgree, Shape, Represented;
    assert h.attempts[..n] + h.attempts[n + 1..] == h.attempts[..n];
  }

  lemma TakenBackTasks(h: History, g: History, ti: nat, previous: Time)
    requires TasksValid(h.tasks) && TakenBack(h, g, ti, previous) && Resumable(h, h.tasks[ti].id, previous)
    ensures TasksValid(g.tasks)
  {
    forall i | 0 <= i < |g.tasks|
      ensures TaskValid(g.tasks[i])
    {
      assert TaskValid(h.tasks[i]);
    }
  }

  lemma TakenBackAttempts(h: History, g: History, ti: nat, previous: Time)
    requires AttemptsValid(h.attempts) && TakenBack(h, g, ti, previous)
    ensures AttemptsValid(g.attempts)
  {
    forall i | 0 <= i < |g.attempts|
      ensures AttemptValid(g.attempts[i])
    {
      assert AttemptValid(h.attempts[i]);
    }
  }

  lemma TakenBackRepresented(h: History, g: History, ti: nat, previous: Time, i: nat)
    requires Shape(h) && TakenBack(h, g, ti, previous) && i < |g.attempts|
    ensures Represented(g.tasks, g.attempts[i])
  {
    var b := h.attempts[i];
    assert Represented(h.tasks, b) && b.id != h.attempts[|h.attempts| - 1].id;
    var x, y :| 0 <= x < |h.tasks| && 0 <= y < |h.tasks[x].attempts| && h.tasks[x].id == b.taskId && Describes(h.tasks[x].attempts[y], b);
    assert Describes(g.tasks[x].attempts[y], b) && g.tasks[x].id == b.taskId;
  }

  lemma TakenBackParent(h: History, g: History, ti: nat, previous: Time, i: nat, kinds: map<Id, ChildKind>)
    requires Lineage(h.attempts, kinds) && TakenBack(h, g, ti, previous) && i < |g.attempts|
    ensures ParentPresent(g.attempts, g.attempts[i])
  {
    assert LineageAt(h.attempts, i, kinds);
    if h.attempts[i].parent.Some? {
      var p :| 0 <= p < i && ParentAt(h.attempts, i, p, kinds);
      assert g.attempts[p].id == g.attempts[i].parent.value && g.attempts[p].taskId == g.attempts[i].taskId;
    }
  }

  lemma TakenBackBacked(h: History, g: History, ti: nat, previous: Time, i: nat, n: nat)
    requires Shape(h) && TakenBack(h, g, ti, previous) && i < |g.tasks| && n < |g.tasks[i].attempts|
    requires Backed(h.attempts, h.tasks[i], h.tasks[i].attempts[n])
    ensures Backed(g.attempts, g.tasks[i], g.tasks[i].attempts[n])
  {
    assert SummariesDistinct(h.tasks[i]);
    var x :| 0 <= x < |h.attempts| && h.attempts[x].taskId == h.tasks[i].id && Describes(h.tasks[i].attempts[n], h.attempts[x]);
    assert x != |h.attempts| - 1;
    assert g.attempts[x].taskId == g.tasks[i].id && Describes(g.tasks[i].attempts[n], g.attempts[x]);
  }

  lemma TakenBackIsValid(h: History, g: History, log: Log, ti: nat, previous: Time)
    requires Sound(h, log) && TakenBack(h, g, ti, previous) && Resumable(h, h.tasks[ti].id, previous)
    ensures HistoryValid(g)
  {
    TakenBackTasks(h, g, ti, previous);
    TakenBackAttempts(h, g, ti, previous);
    hide TasksValid, AttemptsValid, Shape, Lineage, TakenBack, Represented, ParentPresent, Backed, Resumable;
    forall i | 0 <= i < |g.attempts|
      ensures Represented(g.tasks, g.attempts[i]) && ParentPresent(g.attempts, g.attempts[i])
    {
      TakenBackRepresented(h, g, ti, previous, i);
      TakenBackParent(h, g, ti, previous, i, log.kinds);
    }
    forall i, n | 0 <= i < |g.tasks| && 0 <= n < |g.tasks[i].attempts|
      ensures Backed(g.attempts, g.tasks[i], g.tasks[i].attempts[n])
    {
      BackedBefore(h, g, ti, previous, i, n);
      TakenBackBacked(h, g, ti, previous, i, n);
    }
  }

  lemma BackedBefore(h: History, g: History, ti: nat, previous: Time, i: nat, n: nat)
    requires HistoryValid(h) && TakenBack(h, g, ti, previous) && i < |g.tasks| && n < |g.tasks[i].attempts|
    ensures i < |h.tasks| && n < |h.tasks[i].attempts| && Backed(h.attempts, h.tasks[i], h.tasks[i].attempts[n])
  {
    hide TasksValid, AttemptsValid, Represented, ParentPresent, Backed;
  }

  lemma RemovalApplies(h: History, a: Attempt, previous: Time)
    requires HistoryValid(Removed(h, a.taskId, a.id, previous))
    ensures Accepted(h, RemoveAttempt(a.taskId, a.id, previous), true)
  {
    hide HistoryValid, Removed;
  }

  lemma PendingRemovalIsAccepted(s: State)
    requires Inv(s) && LeaseOk(s) && s.handler.Pending?
    ensures Accepted(s.h, RemoveAttempt(s.handler.attempt.taskId, s.handler.attempt.id, s.handler.previous), true)
  {
    var a, previous := s.handler.attempt, s.handler.previous;
    assert Sound(s.h, s.log) && Shape(s.h) && ViewsAgree(s.h) && IsLast(s.h.attempts, a) && Resumable(s.h, a.taskId, previous);
    var ti := RemovalTakesBack(s.h, a, previous);
    assert s.h.tasks[ti].id == a.taskId;
    hide *;
    TakenBackIsValid(s.h, Removed(s.h, a.taskId, a.id, previous), s.log, ti, previous);
    RemovalApplies(s.h, a, previous);
  }

  // In every reachable state validation lets the rollback through: an admission is left
  // inconsistent only by a failed write.
  lemma RollbackIsAccepted(s: State, clock: Time, steps: seq<Step>)
    requires Reachable(s, clock, steps) && s.handler.Pending?
    ensures Accepted(s.h, RemoveAttempt(s.handler.attempt.taskId, s.handler.attempt.id, s.handler.previous), true)
  {
    StartInv(clock);
    hide Inv;
    RunKeepsLease(Start(clock), steps);
    PendingRemovalIsAccepted(s);
  }

  // ---------------------------------------------------------------- rollback and paging

  // A task with this id is among the tasks.
  predicate Lists(ts: seq<Task>, id: Id) {
    exists i :: 0 <= i < |ts| && ts[i].id == id
  }

  lemma ListsKnown(us: seq<Task>, ts: seq<Task>, ti: nat)
    requires UniqueIds(us) && ti < |us| && forall i :: 0 <= i < |ts| ==> ts[i] in us
    ensures Lists(ts, us[ti].id) <==> us[ti] in ts
  {
    if Lists(ts, us[ti].id) {
      var i :| 0 <= i < |ts| && ts[i].id == us[ti].id;
      var m :| 0 <= m < |us| && us[m] == ts[i];
      assert m == ti;
    }
  }

  lemma FollowedAreKnown(us: seq<Task>, q: Query, c: Option<Cursor>)
    requires UniqueIds(us) && q.limit >= 1
    ensures forall i :: 0 <= i < |AllItems(Follow(us, q, c))| ==> AllItems(Follow(us, q, c))[i] in us
  {
    hide Before, Matches, AfterCursor, Listing;
    PagesAreTheListing(us, q, c);
    ListingIsExact(us, q, c);
    var all := Listing(us, q, c);
    forall i | 0 <= i < |all|
      ensures all[i] in us
    {
      assert all[i] in all;
    }
  }

  // What rolling back does to the store a client pages through.
  lemma PendingRollsBack(s: State, persisted: bool)
    requires s.handler.Pending?
    ensures Next(s, LaunchFails(persisted)).Some?
  {
    hide Publish;
  }

  lemma SoundViews(h: History, log: Log)
    requires Sound(h, log)
    ensures Shape(h) && ViewsAgree(h)
  {
    hide HistoryValid, Shape, ViewsAgree;
  }

  lemma RemovalIsRemoved(h: History, a: Attempt, previous: Time)
    requires Accepted(h, RemoveAttempt(a.taskId, a.id, previous), true)
    ensures Publish(h, RemoveAttempt(a.taskId, a.id, previous), true) == Removed(h, a.taskId, a.id, previous)
  {
    hide HistoryValid, Removed;
  }

  lemma StoreTakenBack(h: History, g: History, tk: nat, previous: Time, a: Attempt, ti: nat)
    requires Shape(h) && TakenBack(h, g, tk, previous) && IsLast(h.attempts, a) && ti < |h.tasks| && h.tasks[ti].id == a.taskId
    ensures UniqueIds(g.tasks) && |g.tasks| == |h.tasks| && FirstTask(g.tasks, a.taskId) == ti
    ensures g.tasks[ti].id == h.tasks[ti].id && g.tasks[ti].lastActivityAt == previous
    ensures forall i :: 0 <= i < |g.tasks| && i != ti ==> g.tasks[i] == h.tasks[i]
  {
    assert tk == ti;
    assert forall i :: 0 <= i < |g.tasks| ==> g.tasks[i].id == h.tasks[i].id;
  }

  lemma RolledBackStore(s: State, ti: nat)
    requires Inv(s) && LeaseOk(s) && s.handler.Pending? && ti < |s.h.tasks| && s.h.tasks[ti].id == s.handler.attempt.taskId
    ensures Next(s, LaunchFails(true)).Some?
    ensures var us := Next(s, LaunchFails(true)).value.h.tasks;
            && UniqueIds(us) && |us| == |s.h.tasks|
            && us[ti].id == s.h.tasks[ti].id && us[ti].lastActivityAt == s.handler.previous
            && FirstTask(us, s.handler.attempt.taskId) == ti
            && forall i :: 0 <= i < |us| && i != ti ==> us[i] == s.h.tasks[i]
  {
    var a, previous := s.handler.attempt, s.handler.previous;
    hide *;
    PendingRemovalIsAccepted(s);
    var m := RemoveAttempt(a.taskId, a.id, previous);
    var g := Publish(s.h, m, true);
    PendingRollsBack(s, true);
    RolledBackState(s, true);
    InvSound(s);
    InvHandler(s);
    PendingIs(s);
    SoundViews(s.h, s.log);
    RemovalIsRemoved(s.h, a, previous);
    var tk := RemovalTakesBack(s.h, a, previous);
    StoreTakenBack(s.h, g, tk, previous, a, ti);
  }

  // A client has seen task x on one of its pages; the store it saw last has since grown to
  // the one in which x's new attempt is rolled back. Following the last cursor from there
  // lists x again if and only if x still matches and its reset key falls past that cursor.
  lemma RollbackRelistsExactly(visits: seq<Visit>, pages: seq<Page>, i: nat, x: Task, s: State, q: Query)
    requires Inv(s) && LeaseOk(s) && s.handler.Pending? && q.limit >= 1
    requires Browsed(visits, pages) && i < |visits| && x in pages[i].items && x.id == s.handler.attempt.taskId
    requires pages[|visits| - 1].next.Some? && Grows(visits[|visits| - 1].tasks, s.h.tasks)
    ensures Next(s, LaunchFails(true)).Some?
    ensures var us, cursor := Next(s, LaunchFails(true)).value.h.tasks, pages[|visits| - 1].next.value;
            var ti := FirstTask(us, x.id);
            && UniqueIds(us) && ti < |us|
            && (Lists(AllItems(Follow(us, q, Some(cursor))), x.id)
                <==> Matches(us[ti], q) && Before(cursor, Cursor(s.handler.previous, x.id)))
  {
    hide *;
    BrowsedAt(visits, pages, i);
    var cursor := pages[|visits| - 1].next.value;
    var ti := SeenTask(visits, pages, i, x, s.h.tasks);
    RolledBackStore(s, ti);
    var us := Next(s, LaunchFails(true)).value.h.tasks;
    RelistedExactly(us, q, cursor, ti);
    KeyIs(us[ti]);
  }

  lemma RelistedExactly(us: seq<Task>, q: Query, c: Cursor, ti: nat)
    requires UniqueIds(us) && q.limit >= 1 && ti < |us|
    ensures Lists(AllItems(Follow(us, q, Some(c))), us[ti].id) <==> Matches(us[ti], q) && Before(c, KeyOf(us[ti]))
  {
    hide *;
    FollowedAreKnown(us, q, Some(c));
    ListsKnown(us, AllItems(Follow(us, q, Some(c))), ti);
    ListedAgainExactly(us, q, c, ti);
    AfterIsBefore(us[ti], c);
  }

  lemma KeyIs(t: Task)
    ensures KeyOf(t) == Cursor(t.lastActivityAt, t.id)
  {
  }

  // A listed task is still in a store that only grew.
  lemma SeenTask(visits: seq<Visit>, pages: seq<Page>, i: nat, x: Task, ts: seq<Task>) returns (ti: nat)
    requires Browsed(visits, pages) && i < |visits| && x in pages[i].items
    requires pages[|visits| - 1].next.Some? && Grows(visits[|visits| - 1].tasks, ts)
    ensures ti < |ts| && ts[ti].id == x.id
  {
    hide Browsed, PageOf, Passed, UniqueIds, Selected, Grows;
    var last := |visits| - 1;
    BrowsedAt(visits, pages, last);
    var seen := x;
    if i == last {
      PageHolds(visits[i].tasks, visits[i].query, ResumedFrom(pages, i), x);
    } else {
      var n := StillPassed(visits, pages, i, last, x);
      seen := visits[last].tasks[n];
    }
    ti := Grown(visits[last].tasks, ts, seen);
  }

  lemma Grown(ts: seq<Task>, us: seq<Task>, t: Task) returns (m: nat)
    requires Grows(ts, us) && t in ts
    ensures m < |us| && us[m].id == t.id
  {
    var k :| 0 <= k < |ts| && ts[k] == t;
    m :| 0 <= m < |us| && Touched(ts[k], us[m]);
  }

  // ---------------------------------------------------------------- a task listed twice

  const PLAIN := Intent("title", "goal", "", [RepositoryScope("repo", [])], RunnerPreset("default", "", "", "", "", ""))
  const OLDER := NewTask("task-older", PLAIN, 5)
  const NEWER := NewTask("task-newer", PLAIN, 10)
  const IDLE := History([OLDER, NEWER], [])
  const PLAN := Plan("init", StartIntent, None, "", Fingerprint(OLDER.id, 1, "init", "start", None, ""))
  const ADMITTED := Built(OLDER, "key", PLAN, "attempt-of-older", "run-of-older", 20)
  const BUSY := History([OLDER.(attempts := [SummaryOf(ADMITTED)], lastActivityAt := 20), NEWER], [ADMITTED])
  const SESSION := Session(true, true, {"repo"}, {PLAIN.runner})
  const START := Request(OLDER.id, "key", "init", "start", "", "", FirstStart)
  const ONE_A_PAGE := Query(None, "", "", None, None, 1)

  lemma Tight(s: string)
    requires s != "" && !IsSpace(s[0]) && !IsSpace(s[|s| - 1])
    ensures Trim(s) == s && !Blank(s)
  {
  }

  lemma IdIsOpaque(s: string)
    requires 8 <= |s| <= 128 && forall i :: 0 <= i < |s| ==> 'a' <= s[i] <= 'z' || (i > 0 && s[i] == '-')
    ensures IsOpaqueId(s) && !Blank(s)
  {
    Tight(s);
  }

  lemma IdsAreValid()
    ensures IsOpaqueId(OLDER.id) && !Blank(OLDER.id) && IsOpaqueId(NEWER.id) && OLDER.id != NEWER.id
  {
    assert OLDER.id[5] == 'o' && NEWER.id[5] == 'n';
    hide IsOpaqueId, Trim;
    IdIsOpaque(OLDER.id);
    IdIsOpaque(NEWER.id);
  }

  lemma AttemptIdsAreValid()
    ensures IsOpaqueId(ADMITTED.id) && !Blank(ADMITTED.runId)
  {
    hide IsOpaqueId, Trim;
    IdIsOpaque(ADMITTED.id);
    IdIsOpaque(ADMITTED.runId);
  }

  lemma TaskTextsAreValid()
    ensures IntentValid(PLAIN)
    ensures OutcomeValid(OLDER.outcome, true) && PublicationValid(OLDER.publication, true)
  {
    hide IsOpaqueId, Trim;
    Tight("title");
    Tight("goal");
    Tight("repo");
    Tight("default");
    Tight("no attempt has completed");
    Tight("no publication has been recorded");
  }

  lemma AttemptTextsAreValid()
    ensures OutcomeValid(ADMITTED.outcome, false) && PublicationValid(ADMITTED.publication, false)
    ensures Blank("")
  {
    TrimOfNone();
    hide IsOpaqueId, Trim;
    Tight("attempt has not completed");
    Tight("attempt has not been published");
  }

  lemma IdleIsValid()
    ensures HistoryValid(IDLE)
  {
    IdsAreValid();
    TaskTextsAreValid();
    hide Trim, IsOpaqueId, OutcomeValid, PublicationValid, IntentValid;
    assert TaskValid(OLDER) && TaskValid(NEWER);
  }

  lemma BusyIsValid()
    ensures HistoryValid(BUSY)
  {
    IdsAreValid();
    AttemptIdsAreValid();
    TaskTextsAreValid();
    AttemptTextsAreValid();
    hide Trim, IsOpaqueId, OutcomeValid, PublicationValid, IntentValid;
    assert TaskValid(BUSY.tasks[0]) && TaskValid(NEWER);
    assert AttemptValid(ADMITTED);
    assert Describes(BUSY.tasks[0].attempts[0], ADMITTED);
    assert Represented(BUSY.tasks, BUSY.attempts[0]);
    assert Backed(BUSY.attempts, BUSY.tasks[0], BUSY.tasks[0].attempts[0]);
  }

  lemma TrimOfNone()
    ensures Blank("")
  {
  }

  lemma OneAPage()
    ensures PageOf(BUSY.tasks, ONE_A_PAGE, None) == Page([BUSY.tasks[0]], Some(Cursor(20, OLDER.id)))
  {
    var ts := BUSY.tasks;
    assert ts[..1] == [ts[0]] && ts[..1][..0] == [] && ts[..2] == ts;
    assert Filtered(ts[..1], ONE_A_PAGE, None) == [ts[0]];
    assert Filtered(ts, ONE_A_PAGE, None) == [ts[0], ts[1]];
    assert [ts[0], ts[1]][..1] == [ts[0]] && [ts[0]][..0] == [];
    assert Sorted([ts[0]]) == [ts[0]];
    assert Sorted([ts[0], ts[1]]) == Insert(ts[1], [ts[0]]) == [ts[0], ts[1]];
    assert [ts[0], ts[1]][..1] == [ts[0]];
  }

  lemma AdmittedAndTakenBack()
    ensures Apply(IDLE, AppendAttempt(OLDER.id, ADMITTED)) == Ok(BUSY)
    ensures Apply(BUSY, RemoveAttempt(OLDER.id, ADMITTED.id, 5)) == Ok(IDLE)
    ensures UniqueIds(IDLE.tasks)
  {
    IdsAreValid();
    hide IsOpaqueId, Trim;
    assert FirstTask(IDLE.tasks, OLDER.id) == 0;
    var touched := OLDER.(attempts := OLDER.attempts + [SummaryOf(ADMITTED)], lastActivityAt := 20);
    assert OLDER.attempts + [SummaryOf(ADMITTED)] == [SummaryOf(ADMITTED)];
    assert IDLE.tasks[0 := touched] == BUSY.tasks && IDLE.attempts + [ADMITTED] == BUSY.attempts;
    assert Appended(IDLE, OLDER.id, ADMITTED) == Ok(BUSY);
    RollbackIsIdentity(IDLE, ADMITTED, 0);
  }

  lemma AppliedIsPublished(h: History, m: Mutation, g: History)
    requires Apply(h, m) == Ok(g) && HistoryValid(g)
    ensures Accepted(h, m, true) && Publish(h, m, true) == g
  {
    hide HistoryValid, Apply;
  }

  lemma StartIsAdmitted()
    ensures Decide(IDLE, Coordination(false, false), SESSION, START) == Admit(PLAN)
  {
    IdsAreValid();
    TrimOfNone();
    Tight("key");
    Tight("init");
    Tight("start");
    Tight("repo");
    hide Trim, IsOpaqueId;
    assert FirstTask(IDLE.tasks, OLDER.id) == 0 && SESSION.Covers(OLDER);
    assert FirstAttempt([], ByKey(OLDER.id, "key")) == 0;
  }

  // A rollback that lists a task twice: the admission of the older task puts it on the first
  // page, its run does not start, the attempt is taken back, and a later page has it again.
  lemma RollbackListsTwice()
    ensures Decide(IDLE, Coordination(false, false), SESSION, START) == Admit(PLAN)
    ensures var m := AppendAttempt(OLDER.id, ADMITTED); Accepted(IDLE, m, true) && Publish(IDLE, m, true) == BUSY
    ensures var m := RemoveAttempt(OLDER.id, ADMITTED.id, 5); Accepted(BUSY, m, true) && Publish(BUSY, m, true) == IDLE
    ensures UniqueIds(IDLE.tasks)
    ensures var first := PageOf(BUSY.tasks, ONE_A_PAGE, None);
            && Lists(first.items, OLDER.id) && first.next.Some?
            && Lists(AllItems(Follow(IDLE.tasks, ONE_A_PAGE, first.next)), OLDER.id)
  {
    AdmittedAndTakenBack();
    OneAPage();
    var first := [BUSY.tasks[0]];
    assert first[0].id == OLDER.id && IDLE.tasks[0] == OLDER;
    assert Lists(first, OLDER.id);
    assert Matches(OLDER, ONE_A_PAGE) && Before(Cursor(20, OLDER.id), KeyOf(OLDER));
    hide *;
    StartIsAdmitted();
    IdleIsValid();
    BusyIsValid();
    AppliedIsPublished(IDLE, AppendAttempt(OLDER.id, ADMITTED), BUSY);
    AppliedIsPublished(BUSY, RemoveAttempt(OLDER.id, ADMITTED.id, 5), IDLE);
    RelistedExactly(IDLE.tasks, ONE_A_PAGE, Cursor(20, OLDER.id), 0);
  }
}
