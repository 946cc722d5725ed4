// Every step of the attempt protocol keeps the invariant, and no step takes an
// attempt's status back.
module ProtocolInvariant {
  import opened Wrappers
  import opened Text
  import opened TaskHistory
  import opened HistoryInvariants
  import opened Admission
  import opened Protocol

  // ---------------------------------------------------------------- the invariant and its parts

  lemma InvSound(s: State)
    requires Inv(s)
    ensures Sound(s.h, s.log)
  {
    hide Sound;
  }

  lemma InvHandler(s: State)
    requires Inv(s)
    ensures HandlerOk(s)
  {
    hide HandlerOk;
  }

  lemma InvParts(s: State)
    requires Inv(s)
    ensures RunsOk(s.runs, s.used) && AttemptsOk(s.runs, s.used, s.h.attempts) && RunIdsDistinct(s.h.attempts)
    ensures WatchersOk(s.h.attempts, s.runs, s.used, s.watchers) && OneWatcherEach(s.watchers)
    ensures TodoOk(s.h.attempts, s.watchers, s.todo) && FoundOk(s) && Dated(s.h, s.clock)
  {
    hide Sound, Dated, RunsOk, AttemptsOk, RunIdsDistinct, WatchersOk, OneWatcherEach, HandlerOk, TodoOk, FoundOk;
  }

  lemma InvOf(s: State)
    requires Sound(s.h, s.log) && RunsOk(s.runs, s.used) && AttemptsOk(s.runs, s.used, s.h.attempts)
    requires RunIdsDistinct(s.h.attempts) && WatchersOk(s.h.attempts, s.runs, s.used, s.watchers) && OneWatcherEach(s.watchers)
    requires HandlerOk(s) && TodoOk(s.h.attempts, s.watchers, s.todo) && FoundOk(s) && Dated(s.h, s.clock)
    ensures Inv(s)
  {
    hide Sound, Dated, RunsOk, AttemptsOk, RunIdsDistinct, WatchersOk, OneWatcherEach, HandlerOk, TodoOk, FoundOk;
  }

  lemma CheckedIs(s: State)
    requires HandlerOk(s) && s.handler.Checked?
    ensures Admissible(s.h, s.handler.attempt, Kind(s.handler.req))
  {
    hide Admissible, Answers, HandlerAlone;
  }

  lemma PendingIs(s: State)
    requires HandlerOk(s) && s.handler.Pending?
    ensures IsLast(s.h.attempts, s.handler.attempt)
  {
    hide IsLast, Answers, HandlerAlone;
  }

  lemma AppendedState(s: State, persisted: bool)
    requires Next(s, Append(persisted)).Some?
    ensures s.handler.Checked?
    ensures var t, a := Next(s, Append(persisted)).value, s.handler.attempt;
            t == if Accepted(s.h, AppendAttempt(a.taskId, a), persisted)
                 then s.(h := Publish(s.h, AppendAttempt(a.taskId, a), persisted), log := Admitted(s.log, a, Kind(s.handler.req)),
                         handler := Pending(a, s.handler.req, s.handler.previous))
                 else s.(handler := Idle)
  {
    hide Publish, Accepted, Admitted;
  }

  lemma RolledBackState(s: State, persisted: bool)
    requires Next(s, LaunchFails(persisted)).Some?
    ensures s.handler.Pending?
    ensures var a := s.handler.attempt;
            Next(s, LaunchFails(persisted)).value
            == s.(h := Publish(s.h, RemoveAttempt(a.taskId, a.id, s.handler.previous), persisted), handler := Idle)
  {
    hide Publish;
  }

  // No mutation puts a task's creation in the future.
  lemma MutationKeepsDates(h: History, m: Mutation, persisted: bool, now: Time)
    requires Dated(h, now) && (m.CreateTask? ==> m.task.createdAt <= now)
    ensures Dated(Publish(h, m, persisted), now)
  {
    hide HistoryValid, Without, FirstSummary, FirstAttempt;
  }

  // ---------------------------------------------------------------- one attempt moves on

  ghost predicate AttemptsMove(xs: seq<Attempt>, ys: seq<Attempt>, k: nat) {
    && k < |xs| == |ys|
    && (forall i :: 0 <= i < |xs| && i != k ==> ys[i] == xs[i])
    && SameIdentity(xs[k], ys[k])
    && Forward(xs[k], ys[k])
    && Rank(xs[k].status) <= Rank(ys[k].status)
  }

  // g is h with attempt k moved forward and nothing changed that an admission looks at.
  ghost predicate Moves(h: History, g: History, k: nat) {
    && AttemptsMove(h.attempts, g.attempts, k)
    && |g.tasks| == |h.tasks|
    && (forall i :: 0 <= i < |h.tasks| ==>
          g.tasks[i].id == h.tasks[i].id && g.tasks[i].revision == h.tasks[i].revision && g.tasks[i].intent == h.tasks[i].intent)
  }

  // Nobody holds run information for the attempt, is admitting it or has it left to restore.
  ghost predicate Untold(s: State, k: nat)
    requires k < |s.h.attempts|
  {
    var id := s.h.attempts[k].id;
    && (forall w :: w in s.watchers && s.watchers[w].attemptId == id ==> s.watchers[w].local.Waiting?)
    && (s.handler.Pending? || s.handler.Mirroring? ==> s.handler.attempt.id != id)
    && (forall i :: 0 <= i < |s.todo| ==> s.todo[i].k != k)
    && (s.recovery.Found? ==> s.recovery.item.k != k)
  }

  lemma {:induction false} SearchSame(xs: seq<Attempt>, ys: seq<Attempt>, q: AttemptQuery, from: nat)
    requires from <= |xs| == |ys|
    requires forall i :: 0 <= i < |xs| ==> q.Matches(xs[i]) == q.Matches(ys[i])
    ensures FirstAttempt(xs, q, from) == FirstAttempt(ys, q, from)
    decreases |xs| - from
  {
    if from < |xs| {
      SearchSame(xs, ys, q, from + 1);
    }
  }

  lemma MoveKeepsParent(h: History, g: History, k: nat, a: Attempt, kind: Option<ChildKind>)
    requires Moves(h, g, k) && Admissible(h, a, kind)
    ensures a.parent.Some? ==>
              exists i :: 0 <= i < |g.attempts| && g.attempts[i].id == a.parent.value && g.attempts[i].taskId == a.taskId
                          && kind.value.Fits(g.attempts[i].status)
  {
    if a.parent.Some? {
      var i :| 0 <= i < |h.attempts| && h.attempts[i].id == a.parent.value && h.attempts[i].taskId == a.taskId
               && kind.value.Fits(h.attempts[i].status);
      hide Admissible, FirstAttempt;
      assert g.attempts[i].id == a.parent.value && g.attempts[i].taskId == a.taskId && kind.value.Fits(g.attempts[i].status);
    }
  }

  lemma MoveKeepsTask(h: History, g: History, k: nat, a: Attempt)
    requires Moves(h, g, k)
    requires exists i :: 0 <= i < |h.tasks| && h.tasks[i].id == a.taskId
                         && a.revision == h.tasks[i].revision && a.intent == h.tasks[i].intent
    ensures exists i :: 0 <= i < |g.tasks| && g.tasks[i].id == a.taskId
                        && a.revision == g.tasks[i].revision && a.intent == g.tasks[i].intent
  {
    var x :| 0 <= x < |h.tasks| && h.tasks[x].id == a.taskId && a.revision == h.tasks[x].revision && a.intent == h.tasks[x].intent;
    assert g.tasks[x].id == a.taskId && a.revision == g.tasks[x].revision && a.intent == g.tasks[x].intent;
  }

  lemma MoveKeepsAdmissible(h: History, g: History, k: nat, a: Attempt, kind: Option<ChildKind>)
    requires Moves(h, g, k) && Admissible(h, a, kind)
    ensures Admissible(g, a, kind)
  {
    SearchSame(h.attempts, g.attempts, ByKey(a.taskId, a.key), 0);
    assert forall i :: 0 <= i < |g.attempts| ==> g.attempts[i].taskId == h.attempts[i].taskId;
    MoveKeepsParent(h, g, k, a, kind);
    MoveKeepsTask(h, g, k, a);
    hide AttemptsMove, FirstAttempt;
  }

  lemma MoveKeepsAnswers(h: History, g: History, k: nat, req: Request, a: Attempt)
    requires Moves(h, g, k) && Answers(h, req, a)
    ensures Answers(g, req, a)
  {
    SearchSame(h.attempts, g.attempts, ById(req.taskId, req.parentId), 0);
  }

  lemma MoveKeepsWatchers(s: State, ys: seq<Attempt>, k: nat)
    requires WatchersOk(s.h.attempts, s.runs, s.used, s.watchers) && AttemptsMove(s.h.attempts, ys, k) && Untold(s, k)
    ensures WatchersOk(ys, s.runs, s.used, s.watchers)
  {
    forall w | w in s.watchers
      ensures WatchOk(ys, s.runs, s.used, s.watchers[w])
    {
      assert WatchOk(s.h.attempts, s.runs, s.used, s.watchers[w]);
    }
  }

  lemma MoveKeepsHandler(s: State, g: History, k: nat)
    requires HandlerOk(s) && Moves(s.h, g, k) && Untold(s, k)
    ensures HandlerOk(s.(h := g))
  {
    hide Answers, Admissible;
    if s.handler.Checked? {
      MoveKeepsAdmissible(s.h, g, k, s.handler.attempt, Kind(s.handler.req));
      MoveKeepsAnswers(s.h, g, k, s.handler.req, s.handler.attempt);
    } else if s.handler.Pending? {
      MoveKeepsAnswers(s.h, g, k, s.handler.req, s.h.attempts[|s.h.attempts| - 1]);
    }
  }

  lemma MoveKeepsTodo(s: State, ys: seq<Attempt>, k: nat)
    requires TodoOk(s.h.attempts, s.watchers, s.todo) && AttemptsMove(s.h.attempts, ys, k) && Untold(s, k)
    ensures TodoOk(ys, s.watchers, s.todo)
  {
    forall i | 0 <= i < |s.todo|
      ensures LeftoverOk(ys, s.watchers, s.todo[i]) && !ys[s.todo[i].k].status.Terminal()
    {
      assert LeftoverOk(s.h.attempts, s.watchers, s.todo[i]);
    }
  }

  lemma MoveKeepsFound(s: State, g: History, k: nat)
    requires FoundOk(s) && AttemptsMove(s.h.attempts, g.attempts, k) && Untold(s, k) && Shape(s.h)
    ensures FoundOk(s.(h := g))
  {
  }

  lemma MoveKeepsAttempts(s: State, ys: seq<Attempt>, k: nat)
    requires AttemptsOk(s.runs, s.used, s.h.attempts) && RunIdsDistinct(s.h.attempts) && AttemptsMove(s.h.attempts, ys, k)
    requires ys[k].runId in s.runs ==> Behind(ys[k], s.runs[ys[k].runId])
    ensures AttemptsOk(s.runs, s.used, ys) && RunIdsDistinct(ys)
  {
    forall i | 0 <= i < |ys|
      ensures AttemptOk(s.runs, s.used, ys[i]) && ys[i].runId == s.h.attempts[i].runId
    {
      assert AttemptOk(s.runs, s.used, s.h.attempts[i]);
    }
  }

  lemma MoveKeepsInv(s: State, g: History, k: nat)
    requires Inv(s) && Moves(s.h, g, k) && Untold(s, k) && Sound(g, s.log) && Dated(g, s.clock)
    requires g.attempts[k].runId in s.runs ==> Behind(g.attempts[k], s.runs[g.attempts[k].runId])
    ensures Inv(s.(h := g))
  {
    MoveKeepsWatchers(s, g.attempts, k);
    MoveKeepsHandler(s, g, k);
    MoveKeepsTodo(s, g.attempts, k);
    MoveKeepsFound(s, g, k);
    MoveKeepsAttempts(s, g.attempts, k);
  }

  // ---------------------------------------------------------------- mirrored and marked attempts

  lemma AdvanceMoves(h: History, g: History, k: nat, a: Attempt, now: Time, o: Option<Outcome>)
    requires Advances(h, g, k, a, now, o) && Forward(h.attempts[k], a) && Rank(h.attempts[k].status) <= Rank(a.status)
    ensures Moves(h, g, k)
  {
  }

  lemma MirroredBehind(a: Attempt, info: RunInfo)
    requires Behind(a, info) && InfoConsistent(info)
    ensures var b := MirroredAttempt(a, info);
            Behind(b, info) && Forward(a, b) && SameIdentity(a, b) && Rank(a.status) <= Rank(b.status)
  {
  }

  lemma BehindLater(a: Attempt, info: RunInfo, later: RunInfo)
    requires Behind(a, info) && Reached(info, later)
    ensures Behind(a, later)
  {
  }

  // Writing held information moves its attempt forward, never past the run.
  lemma MirrorMoves(h: History, log: Log, runs: map<Id, RunInfo>, info: RunInfo, now: Time, persisted: bool)
    requires Sound(h, log) && Held(h.attempts, runs, info.attemptId, info.runId, info)
    requires Accepted(h, MirrorRun(info, now), persisted)
    ensures var g := Publish(h, MirrorRun(info, now), persisted);
            var k := FirstAttempt(h.attempts, ByRun(info.runId, info.attemptId));
            && k < |h.attempts| && Moves(h, g, k) && Sound(g, log)
            && h.attempts[k].id == info.attemptId
            && g.attempts[k] == MirroredAttempt(h.attempts[k], info)
            && Behind(g.attempts[k], info)
            && (g.attempts[k].runId in runs ==> Behind(g.attempts[k], runs[g.attempts[k].runId]))
  {
    var g := Publish(h, MirrorRun(info, now), persisted);
    var k := FirstAttempt(h.attempts, ByRun(info.runId, info.attemptId));
    var b := MirroredAttempt(h.attempts[k], info);
    MirroredBehind(h.attempts[k], info);
    MirrorAdvances(h, info, now);
    AdvanceMoves(h, g, k, b, now, OutcomeFrom(b));
    ValidShape(g);
    AdvanceKeepsCoherent(h, g, k, b, now, OutcomeFrom(b), log);
    if b.runId in runs {
      BehindLater(b, info, runs[b.runId]);
    }
  }

  lemma MirrorKeepsInv(s: State, info: RunInfo, persisted: bool)
    requires Inv(s) && Held(s.h.attempts, s.runs, info.attemptId, info.runId, info)
    requires forall k :: 0 <= k < |s.h.attempts| && s.h.attempts[k].id == info.attemptId ==> Untold(s, k)
    ensures Inv(s.(h := Publish(s.h, MirrorRun(info, s.clock), persisted)))
  {
    if Accepted(s.h, MirrorRun(info, s.clock), persisted) {
      MirrorMoves(s.h, s.log, s.runs, info, s.clock, persisted);
      MutationKeepsDates(s.h, MirrorRun(info, s.clock), persisted, s.clock);
      MoveKeepsInv(s, Publish(s.h, MirrorRun(info, s.clock), persisted), FirstAttempt(s.h.attempts, ByRun(info.runId, info.attemptId)));
    }
  }

  lemma MarkMoves(h: History, log: Log, k: nat, now: Time, persisted: bool)
    requires Sound(h, log) && k < |h.attempts| && !h.attempts[k].status.Terminal()
    requires Accepted(h, MarkUnavailable(h.attempts[k].taskId, h.attempts[k].id, now), persisted)
    ensures var g := Publish(h, MarkUnavailable(h.attempts[k].taskId, h.attempts[k].id, now), persisted);
            Moves(h, g, k) && Sound(g, log)
  {
    var a := h.attempts[k];
    var g := Publish(h, MarkUnavailable(a.taskId, a.id, now), persisted);
    AttemptAt(h, k);
    MarkAdvances(h, a.taskId, a.id, now);
    AdvanceMoves(h, g, k, MarkedAttempt(a, now), now, Some(Unavailable(RunLost)));
    ValidShape(g);
    AdvanceKeepsCoherent(h, g, k, MarkedAttempt(a, now), now, Some(Unavailable(RunLost)), log);
  }

  // ---------------------------------------------------------------- steps of the environment

  // Runs forgotten or moved on.
  ghost predicate RunsMove(before: map<Id, RunInfo>, after: map<Id, RunInfo>) {
    forall r :: r in after ==> r in before && Reached(before[r], after[r])
  }

  lemma AttemptsFollowRuns(s: State, runs: map<Id, RunInfo>)
    requires AttemptsOk(s.runs, s.used, s.h.attempts) && RunsMove(s.runs, runs)
    ensures AttemptsOk(runs, s.used, s.h.attempts)
  {
    forall i | 0 <= i < |s.h.attempts|
      ensures AttemptOk(runs, s.used, s.h.attempts[i])
    {
      assert AttemptOk(s.runs, s.used, s.h.attempts[i]);
      if s.h.attempts[i].runId in runs {
        BehindLater(s.h.attempts[i], s.runs[s.h.attempts[i].runId], runs[s.h.attempts[i].runId]);
      }
    }
  }

  lemma WatchersFollowRuns(s: State, runs: map<Id, RunInfo>)
    requires WatchersOk(s.h.attempts, s.runs, s.used, s.watchers) && RunsMove(s.runs, runs)
    ensures WatchersOk(s.h.attempts, runs, s.used, s.watchers)
  {
    forall w | w in s.watchers
      ensures WatchOk(s.h.attempts, runs, s.used, s.watchers[w])
    {
      assert WatchOk(s.h.attempts, s.runs, s.used, s.watchers[w]);
    }
  }

  lemma HandlerFollowsRuns(s: State, runs: map<Id, RunInfo>)
    requires HandlerOk(s) && RunsMove(s.runs, runs)
    ensures HandlerOk(s.(runs := runs))
  {
    hide Admissible, Answers, IsLast, Behind;
  }

  lemma FoundFollowsRuns(s: State, runs: map<Id, RunInfo>)
    requires FoundOk(s) && RunsMove(s.runs, runs)
    ensures FoundOk(s.(runs := runs))
  {
    hide LeftoverOk, Behind;
  }

  lemma RunsOnlyMove(s: State, runs: map<Id, RunInfo>)
    requires Inv(s) && RunsOk(runs, s.used)
    requires RunsMove(s.runs, runs)
    ensures Inv(s.(runs := runs))
  {
    InvSound(s);
    InvHandler(s);
    InvParts(s);
    hide Inv, Sound, HandlerOk, WatchersOk, TodoOk, FoundOk, OneWatcherEach;
    AttemptsFollowRuns(s, runs);
    WatchersFollowRuns(s, runs);
    HandlerFollowsRuns(s, runs);
    FoundFollowsRuns(s, runs);
    InvOf(s.(runs := runs));
  }

  lemma RunStepKeepsInv(s: State, step: Step)
    requires Inv(s) && (step.RunMoves? || step.RunForgotten?) && Next(s, step).Some?
    ensures Inv(Next(s, step).value)
  {
    RunsOnlyMove(s, Next(s, step).value.runs);
  }

  // ---------------------------------------------------------------- steps of watchers

  lemma TodoWatchers(xs: seq<Attempt>, before: map<nat, Watch>, after: map<nat, Watch>, todo: seq<Leftover>)
    requires TodoOk(xs, before, todo)
    requires forall w :: w in after ==> w in before && after[w].attemptId == before[w].attemptId
    ensures TodoOk(xs, after, todo)
  {
    forall i | 0 <= i < |todo|
      ensures LeftoverOk(xs, after, todo[i]) && !xs[todo[i].k].status.Terminal()
    {
      assert LeftoverOk(xs, before, todo[i]);
    }
  }

  // Watchers dropped, or left watching what they watched.
  lemma WatchersChange(s: State, after: map<nat, Watch>)
    requires Inv(s) && WatchersOk(s.h.attempts, s.runs, s.used, after)
    requires forall w :: w in after ==>
               w in s.watchers && after[w].attemptId == s.watchers[w].attemptId && after[w].runId == s.watchers[w].runId
    ensures Inv(s.(watchers := after))
  {
    hide HistoryValid, Coherent, WatchersOk, AttemptsOk, Answers, Admissible, Held;
    TodoWatchers(s.h.attempts, s.watchers, after, s.todo);
  }

  lemma WatcherRests(s: State, after: map<nat, Watch>)
    requires Inv(s)
    requires forall w :: w in after ==>
               w in s.watchers && after[w].attemptId == s.watchers[w].attemptId && after[w].runId == s.watchers[w].runId
               && (after[w].local.Waiting? || (!s.watchers[w].local.Waiting? && after[w].local.info == s.watchers[w].local.info))
    ensures Inv(s.(watchers := after))
  {
    forall w | w in after
      ensures WatchOk(s.h.attempts, s.runs, s.used, after[w])
    {
      assert WatchOk(s.h.attempts, s.runs, s.used, s.watchers[w]);
    }
    WatchersChange(s, after);
  }

  lemma EntitledReads(s: State, attemptId: Id, runId: Id)
    requires RunsOk(s.runs, s.used) && AttemptsOk(s.runs, s.used, s.h.attempts)
    requires Entitled(s.h.attempts, s.runs, s.used, attemptId, runId) && runId in s.runs
    ensures Held(s.h.attempts, s.runs, attemptId, runId, s.runs[runId])
  {
    forall i | 0 <= i < |s.h.attempts| && s.h.attempts[i].id == attemptId
      ensures Behind(s.h.attempts[i], s.runs[runId])
    {
      assert AttemptOk(s.runs, s.used, s.h.attempts[i]);
    }
  }

  lemma ReadState(s: State, w: nat)
    requires Next(s, WatchReads(w)).Some?
    ensures w in s.watchers && s.watchers[w].local.Waiting?
    ensures Next(s, WatchReads(w)).value
            == if s.watchers[w].runId in s.runs then Holds(s, w, Holding(s.runs[s.watchers[w].runId])) else Unwatch(s, w)
  {
    hide Unwatch;
  }

  // A watcher may take hold of what its run reports.
  lemma HoldKeepsWatchers(s: State, w: nat)
    requires RunsOk(s.runs, s.used) && AttemptsOk(s.runs, s.used, s.h.attempts)
    requires WatchersOk(s.h.attempts, s.runs, s.used, s.watchers) && w in s.watchers && s.watchers[w].runId in s.runs
    ensures WatchersOk(s.h.attempts, s.runs, s.used, Holds(s, w, Holding(s.runs[s.watchers[w].runId])).watchers)
  {
    var after := Holds(s, w, Holding(s.runs[s.watchers[w].runId])).watchers;
    assert WatchOk(s.h.attempts, s.runs, s.used, s.watchers[w]);
    EntitledReads(s, s.watchers[w].attemptId, s.watchers[w].runId);
    hide Held, Entitled, AttemptsOk, RunsOk;
    forall v | v in after
      ensures WatchOk(s.h.attempts, s.runs, s.used, after[v])
    {
      assert WatchOk(s.h.attempts, s.runs, s.used, s.watchers[v]);
    }
  }

  lemma WatchReadKeepsInv(s: State, w: nat)
    requires Inv(s) && Next(s, WatchReads(w)).Some?
    ensures Inv(Next(s, WatchReads(w)).value)
  {
    ReadState(s, w);
    InvParts(s);
    hide Inv, Next, AttemptsOk, WatchersOk, RunsOk;
    var t := Next(s, WatchReads(w)).value;
    if s.watchers[w].runId in s.runs {
      HoldKeepsWatchers(s, w);
      WatchersChange(s, t.watchers);
    } else {
      WatcherRests(s, t.watchers);
    }
  }

  // A watcher's attempt is nobody else's business.
  lemma WatchedIsUntold(s: State, w: nat, k: nat)
    requires Inv(s) && w in s.watchers && s.watchers[w].local.Waiting?
    requires k < |s.h.attempts| && s.h.attempts[k].id == s.watchers[w].attemptId
    ensures Untold(s, k)
  {
    forall i | 0 <= i < |s.todo|
      ensures s.todo[i].k != k
    {
      assert LeftoverOk(s.h.attempts, s.watchers, s.todo[i]);
    }
  }

  lemma WrittenInv(s: State, w: nat, persisted: bool)
    requires Inv(s) && w in s.watchers && s.watchers[w].local.Writing?
    ensures Inv(Holds(s, w, Waiting).(h := Publish(s.h, MirrorRun(s.watchers[w].local.info, s.clock), persisted)))
  {
    var info := s.watchers[w].local.info;
    assert WatchOk(s.h.attempts, s.runs, s.used, s.watchers[w]);
    hide Inv, Publish, Entitled;
    var rested := Holds(s, w, Waiting);
    WatcherRests(s, rested.watchers);
    forall k | 0 <= k < |s.h.attempts| && s.h.attempts[k].id == info.attemptId
      ensures Untold(rested, k)
    {
      WatchedIsUntold(rested, w, k);
    }
    MirrorKeepsInv(rested, info, persisted);
  }

  lemma WroteState(s: State, w: nat, persisted: bool)
    requires Next(s, WatchWrites(w, persisted)).Some?
    ensures w in s.watchers && s.watchers[w].local.Writing?
    ensures var written := Holds(s, w, Waiting).(h := Publish(s.h, MirrorRun(s.watchers[w].local.info, s.clock), persisted));
            var t := Next(s, WatchWrites(w, persisted)).value;
            && t == written.(watchers := t.watchers)
            && forall v :: v in t.watchers ==>
                 v in written.watchers && t.watchers[v].attemptId == written.watchers[v].attemptId
                 && t.watchers[v].runId == written.watchers[v].runId && t.watchers[v].local == written.watchers[v].local
  {
    PublishedOrNot(s.h, MirrorRun(s.watchers[w].local.info, s.clock), persisted);
    hide Publish, Accepted;
  }

  lemma WatchWriteKeepsInv(s: State, w: nat, persisted: bool)
    requires Inv(s) && Next(s, WatchWrites(w, persisted)).Some?
    ensures Inv(Next(s, WatchWrites(w, persisted)).value)
  {
    hide *;
    WroteState(s, w, persisted);
    WrittenInv(s, w, persisted);
    var written := Holds(s, w, Waiting).(h := Publish(s.h, MirrorRun(s.watchers[w].local.info, s.clock), persisted));
    WatcherRests(written, Next(s, WatchWrites(w, persisted)).value.watchers);
  }

  lemma WatchedState(s: State, step: Step)
    requires (step.WatchDecides? || step.WatchQuits?) && Next(s, step).Some?
    ensures var t := Next(s, step).value;
            && t == s.(watchers := t.watchers)
            && forall v :: v in t.watchers ==>
                 v in s.watchers && t.watchers[v].attemptId == s.watchers[v].attemptId && t.watchers[v].runId == s.watchers[v].runId
                 && (t.watchers[v].local.Waiting?
                     || (!s.watchers[v].local.Waiting? && t.watchers[v].local.info == s.watchers[v].local.info))
  {
    hide NeedsRunUpdate;
  }

  lemma WatchStepKeepsInv(s: State, step: Step)
    requires Inv(s) && (step.WatchDecides? || step.WatchQuits?) && Next(s, step).Some?
    ensures Inv(Next(s, step).value)
  {
    hide *;
    WatchedState(s, step);
    WatcherRests(s, Next(s, step).value.watchers);
  }

  // ---------------------------------------------------------------- steps of the lease holder

  lemma FreshInAttempts(s: State, id: Id)
    requires AttemptsOk(s.runs, s.used, s.h.attempts) && id !in s.used
    ensures forall i :: 0 <= i < |s.h.attempts| ==> s.h.attempts[i].id != id && s.h.attempts[i].runId != id
  {
    forall i | 0 <= i < |s.h.attempts|
      ensures s.h.attempts[i].id != id && s.h.attempts[i].runId != id
    {
      assert AttemptOk(s.runs, s.used, s.h.attempts[i]);
    }
  }

  lemma FreshInWatchers(s: State, id: Id)
    requires WatchersOk(s.h.attempts, s.runs, s.used, s.watchers) && id !in s.used
    ensures forall w :: w in s.watchers ==> s.watchers[w].attemptId != id && s.watchers[w].runId != id
  {
    forall w | w in s.watchers
      ensures s.watchers[w].attemptId != id && s.watchers[w].runId != id
    {
      assert WatchOk(s.h.attempts, s.runs, s.used, s.watchers[w]);
    }
  }

  lemma MoreUsed(s: State, used: set<Id>)
    requires Inv(s) && s.used <= used
    ensures RunsOk(s.runs, used) && AttemptsOk(s.runs, used, s.h.attempts) && WatchersOk(s.h.attempts, s.runs, used, s.watchers)
  {
    forall i | 0 <= i < |s.h.attempts|
      ensures AttemptOk(s.runs, used, s.h.attempts[i])
    {
      assert AttemptOk(s.runs, s.used, s.h.attempts[i]);
    }
    forall w | w in s.watchers
      ensures WatchOk(s.h.attempts, s.runs, used, s.watchers[w])
    {
      assert WatchOk(s.h.attempts, s.runs, s.used, s.watchers[w]);
    }
  }

  lemma CheckedState(s: State, step: Step)
    requires step.Check? && Next(s, step).Some?
    ensures s.todo == [] && s.recovery.Resting?
    ensures Decide(s.h, step.c, step.session, step.req).Admit? && FirstTask(s.h.tasks, step.req.taskId) < |s.h.tasks|
    ensures step.attemptId != step.runId && step.attemptId !in s.used && step.runId !in s.used
    ensures var ti := FirstTask(s.h.tasks, step.req.taskId);
            var a := Built(s.h.tasks[ti], Trim(step.req.key), Decide(s.h, step.c, step.session, step.req).plan,
                           step.attemptId, step.runId, s.clock);
            && a.id == step.attemptId && a.runId == step.runId && a.taskId == s.h.tasks[ti].id
            && Next(s, step).value == s.(handler := Checked(a, step.req, s.h.tasks[ti].lastActivityAt),
                                         used := s.used + {step.attemptId, step.runId})
  {
    hide Decide;
  }

  lemma FreshAlone(s: State, a: Attempt, t: State)
    requires Inv(s) && s.todo == [] && s.recovery.Resting? && a.id !in s.used && a.runId !in s.used && t.used == s.used + {a.id, a.runId}
    requires t == s.(handler := t.handler, used := t.used)
    ensures HandlerAlone(t, a) && a.runId !in s.runs
    ensures forall i :: 0 <= i < |s.h.attempts| ==> s.h.attempts[i].id != a.id && s.h.attempts[i].runId != a.runId
  {
    hide *;
    InvParts(s);
    FreshInRuns(s, a.runId);
    FreshInAttempts(s, a.id);
    FreshInAttempts(s, a.runId);
    FreshInWatchers(s, a.id);
    FreshInWatchers(s, a.runId);
    StrangerAlone(t, a);
  }

  lemma FreshInRuns(s: State, id: Id)
    requires RunsOk(s.runs, s.used) && id !in s.used
    ensures id !in s.runs
  {
  }

  lemma StrangerAlone(t: State, a: Attempt)
    requires t.todo == [] && t.recovery.Resting? && a.id in t.used && a.runId in t.used && a.runId !in t.runs
    requires forall w :: w in t.watchers ==> t.watchers[w].attemptId != a.id && t.watchers[w].runId != a.runId
    requires forall i :: 0 <= i < |t.h.attempts| ==> t.h.attempts[i].id != a.id
    ensures HandlerAlone(t, a)
  {
  }

  // The lease holder's attempt is new to everyone.
  lemma FreshHandler(t: State, a: Attempt, req: Request)
    requires HandlerAlone(t, a) && a.runId !in t.runs && t.handler.Checked? && t.handler.attempt == a && t.handler.req == req
    requires forall i :: 0 <= i < |t.h.attempts| ==> t.h.attempts[i].id != a.id && t.h.attempts[i].runId != a.runId
    requires Admissible(t.h, a, Kind(req)) && Answers(t.h, req, a)
    ensures HandlerOk(t)
  {
    hide HandlerAlone, Admissible, Answers;
  }

  lemma RestingFound(s: State, t: State)
    requires s.recovery.Resting? && t.recovery == s.recovery
    ensures FoundOk(t)
  {
  }

  lemma CheckKeepsInv(s: State, step: Step)
    requires Inv(s) && step.Check? && Next(s, step).Some?
    ensures Inv(Next(s, step).value)
  {
    hide *;
    CheckedState(s, step);
    var t, a := Next(s, step).value, Next(s, step).value.handler.attempt;
    AdmittedIsAdmissible(s.h, step.c, step.session, step.req, step.attemptId, step.runId, s.clock);
    AdmittedAnswers(s.h, step.c, step.session, step.req, step.attemptId, step.runId, s.clock);
    InvSound(s);
    InvParts(s);
    MoreUsed(s, t.used);
    FreshAlone(s, a, t);
    FreshHandler(t, a, step.req);
    RestingFound(s, t);
    InvOf(t);
  }

  // The lease holder lets go of what it held.
  lemma HandlerRests(s: State, handler: Handler)
    requires Inv(s) && !s.handler.Idle?
    requires handler.Idle? || handler == Attaching(s.handler.attempt)
    ensures Inv(s.(handler := handler))
  {
  }

  lemma AppendedAttempts(s: State, a: Attempt)
    requires AttemptsOk(s.runs, s.used, s.h.attempts) && RunIdsDistinct(s.h.attempts)
    requires WatchersOk(s.h.attempts, s.runs, s.used, s.watchers) && Unwatched(s.watchers, a.id)
    requires a.id in s.used && a.runId in s.used && a.runId !in s.runs
    requires forall i :: 0 <= i < |s.h.attempts| ==> s.h.attempts[i].runId != a.runId
    ensures var xs := s.h.attempts + [a];
            AttemptsOk(s.runs, s.used, xs) && RunIdsDistinct(xs) && WatchersOk(xs, s.runs, s.used, s.watchers)
  {
    var xs := s.h.attempts + [a];
    forall i | 0 <= i < |xs|
      ensures AttemptOk(s.runs, s.used, xs[i])
    {
      if i < |s.h.attempts| {
        assert AttemptOk(s.runs, s.used, s.h.attempts[i]);
      }
    }
    forall w | w in s.watchers
      ensures WatchOk(xs, s.runs, s.used, s.watchers[w])
    {
      assert WatchOk(s.h.attempts, s.runs, s.used, s.watchers[w]);
    }
  }

  lemma AppendSound(h: History, log: Log, a: Attempt, kind: Option<ChildKind>, persisted: bool)
    requires Sound(h, log) && Admissible(h, a, kind) && Accepted(h, AppendAttempt(a.taskId, a), persisted)
    ensures var g := Publish(h, AppendAttempt(a.taskId, a), persisted);
            Sound(g, Admitted(log, a, kind)) && g.attempts == h.attempts + [a]
  {
    ValidShape(Publish(h, AppendAttempt(a.taskId, a), persisted));
    AppendKeepsCoherent(h, a, kind, log);
  }

  lemma {:induction false} SearchBeforeLast(xs: seq<Attempt>, a: Attempt, q: AttemptQuery, from: nat)
    requires from <= |xs| && FirstAttempt(xs, q, from) < |xs|
    ensures FirstAttempt(xs + [a], q, from) == FirstAttempt(xs, q, from)
    decreases |xs| - from
  {
    if from < |xs| && !q.Matches(xs[from]) {
      SearchBeforeLast(xs, a, q, from + 1);
    }
  }

  lemma AppendKeepsAnswers(xs: seq<Attempt>, a: Attempt, req: Request, h: History, g: History)
    requires h.attempts == xs && g.attempts == xs + [a] && Answers(h, req, a)
    ensures Answers(g, req, a)
  {
    if req.action.Child? {
      SearchBeforeLast(xs, a, ById(req.taskId, req.parentId), 0);
    }
  }

  lemma AppendedInv(s: State, g: History, log: Log)
    requires Inv(s) && s.handler.Checked? && Sound(g, log) && Dated(g, s.clock)
    requires g.attempts == s.h.attempts + [s.handler.attempt]
    ensures Inv(s.(h := g, log := log, handler := Pending(s.handler.attempt, s.handler.req, s.handler.previous)))
  {
    AppendedAttempts(s, s.handler.attempt);
    AppendKeepsAnswers(s.h.attempts, s.handler.attempt, s.handler.req, s.h, g);
    assert g.attempts[|s.h.attempts|] == s.handler.attempt;
  }

  lemma AppendKeepsInv(s: State, persisted: bool)
    requires Inv(s) && Next(s, Append(persisted)).Some?
    ensures Inv(Next(s, Append(persisted)).value)
  {
    hide *;
    AppendedState(s, persisted);
    InvSound(s);
    InvHandler(s);
    CheckedIs(s);
    var a := s.handler.attempt;
    if Accepted(s.h, AppendAttempt(a.taskId, a), persisted) {
      AppendSound(s.h, s.log, a, Kind(s.handler.req), persisted);
      InvParts(s);
      MutationKeepsDates(s.h, AppendAttempt(a.taskId, a), persisted, s.clock);
      AppendedInv(s, Publish(s.h, AppendAttempt(a.taskId, a), persisted), Admitted(s.log, a, Kind(s.handler.req)));
    } else {
      HandlerRests(s, Idle);
    }
  }

  // A new run is the last attempt's alone.
  lemma LaunchedAttempts(s: State, a: Attempt, info: RunInfo)
    requires AttemptsOk(s.runs, s.used, s.h.attempts) && RunIdsDistinct(s.h.attempts) && IsLast(s.h.attempts, a)
    requires info.runId == a.runId && info.attemptId == a.id
    ensures AttemptsOk(s.runs[info.runId := info], s.used, s.h.attempts)
  {
    var n := |s.h.attempts| - 1;
    forall i | 0 <= i < |s.h.attempts|
      ensures AttemptOk(s.runs[info.runId := info], s.used, s.h.attempts[i])
    {
      assert AttemptOk(s.runs, s.used, s.h.attempts[i]);
      if i < n {
        assert s.h.attempts[i].runId != s.h.attempts[n].runId;
      }
    }
  }

  lemma LaunchedWatchers(s: State, a: Attempt, info: RunInfo)
    requires WatchersOk(s.h.attempts, s.runs, s.used, s.watchers) && HandlerAlone(s, a) && info.runId == a.runId
    ensures WatchersOk(s.h.attempts, s.runs[info.runId := info], s.used, s.watchers)
  {
    forall w | w in s.watchers
      ensures WatchOk(s.h.attempts, s.runs[info.runId := info], s.used, s.watchers[w])
    {
      assert WatchOk(s.h.attempts, s.runs, s.used, s.watchers[w]);
    }
  }

  lemma LaunchedHandler(s: State, a: Attempt, info: RunInfo, t: State)
    requires HandlerAlone(s, a) && info.attemptId == a.id && info.runId == a.runId
    requires t == s.(runs := s.runs[info.runId := info], handler := Launched(a))
    ensures HandlerAlone(t, a)
  {
  }

  lemma LaunchKeepsInv(s: State, info: RunInfo)
    requires Inv(s) && Next(s, Launch(info)).Some?
    ensures Inv(Next(s, Launch(info)).value)
  {
    hide Sound, AttemptsOk, WatchersOk, HandlerAlone, IsLast, Answers, InfoConsistent;
    var a := s.handler.attempt;
    assert HandlerAlone(s, a) && IsLast(s.h.attempts, a);
    LaunchedAttempts(s, a, info);
    LaunchedWatchers(s, a, info);
    LaunchedHandler(s, a, info, Next(s, Launch(info)).value);
    AloneRests(s, a);
  }

  lemma AloneRests(s: State, a: Attempt)
    requires HandlerAlone(s, a)
    ensures s.todo == [] && s.recovery.Resting? && a.runId in s.used
  {
  }

  lemma ShorterAttempts(s: State)
    requires AttemptsOk(s.runs, s.used, s.h.attempts) && RunIdsDistinct(s.h.attempts) && s.h.attempts != []
    requires WatchersOk(s.h.attempts, s.runs, s.used, s.watchers)
    ensures var xs := s.h.attempts[..|s.h.attempts| - 1];
            AttemptsOk(s.runs, s.used, xs) && RunIdsDistinct(xs) && WatchersOk(xs, s.runs, s.used, s.watchers)
  {
    var xs := s.h.attempts[..|s.h.attempts| - 1];
    forall i | 0 <= i < |xs|
      ensures AttemptOk(s.runs, s.used, xs[i])
    {
      assert AttemptOk(s.runs, s.used, s.h.attempts[i]);
    }
    forall w | w in s.watchers
      ensures WatchOk(xs, s.runs, s.used, s.watchers[w])
    {
      assert WatchOk(s.h.attempts, s.runs, s.used, s.watchers[w]);
    }
  }

  lemma RemoveSound(h: History, log: Log, a: Attempt, previous: Time, persisted: bool)
    requires Sound(h, log) && IsLast(h.attempts, a) && Accepted(h, RemoveAttempt(a.taskId, a.id, previous), persisted)
    ensures var g := Publish(h, RemoveAttempt(a.taskId, a.id, previous), persisted);
            Sound(g, log) && g.attempts == h.attempts[..|h.attempts| - 1]
  {
    ValidShape(Publish(h, RemoveAttempt(a.taskId, a.id, previous), persisted));
    RemoveKeepsCoherent(h, a.taskId, a.id, previous, log);
  }

  lemma IdleIs(s: State)
    requires s.handler.Idle?
    ensures HandlerOk(s)
  {
  }

  lemma NothingLeft(s: State)
    requires s.todo == [] && s.recovery.Resting?
    ensures TodoOk(s.h.attempts, s.watchers, s.todo) && FoundOk(s)
  {
  }

  lemma RemovalKeepsInv(s: State, a: Attempt, previous: Time, persisted: bool)
    requires Inv(s) && IsLast(s.h.attempts, a) && s.handler.Idle? && s.todo == [] && s.recovery.Resting?
    ensures Inv(s.(h := Publish(s.h, RemoveAttempt(a.taskId, a.id, previous), persisted)))
  {
    var m := RemoveAttempt(a.taskId, a.id, previous);
    hide *;
    InvSound(s);
    InvParts(s);
    PublishedOrNot(s.h, m, persisted);
    if Accepted(s.h, m, persisted) {
      var t := s.(h := Publish(s.h, m, persisted));
      RemoveSound(s.h, s.log, a, previous, persisted);
      LastIsOne(s.h.attempts, a);
      MutationKeepsDates(s.h, m, persisted, s.clock);
      ShorterAttempts(s);
      IdleIs(t);
      NothingLeft(t);
      InvOf(t);
    }
  }

  lemma LastIsOne(xs: seq<Attempt>, a: Attempt)
    requires IsLast(xs, a)
    ensures xs != []
  {
  }

  lemma PendingAlone(s: State)
    requires HandlerOk(s) && (s.handler.Pending? || s.handler.Attaching?)
    ensures HandlerAlone(s, s.handler.attempt)
  {
    hide HandlerAlone, IsLast, Answers;
  }

  lemma LaunchFailsKeepsInv(s: State, persisted: bool)
    requires Inv(s) && Next(s, LaunchFails(persisted)).Some?
    ensures Inv(Next(s, LaunchFails(persisted)).value)
  {
    hide *;
    RolledBackState(s, persisted);
    InvHandler(s);
    PendingIs(s);
    PendingAlone(s);
    var a := s.handler.attempt;
    AloneRests(s, a);
    HandlerRests(s, Idle);
    RemovalKeepsInv(s.(handler := Idle), a, s.handler.previous, persisted);
  }

  lemma MirroredBackState(s: State, persisted: bool)
    requires Next(s, MirrorBack(persisted)).Some?
    ensures s.handler.Mirroring?
    ensures var rested := s.(handler := Attaching(s.handler.attempt));
            Next(s, MirrorBack(persisted)).value == rested.(h := Publish(rested.h, MirrorRun(s.handler.info, rested.clock), persisted))
  {
    hide Publish;
  }

  // What the lease holder read back is for its attempt, which nobody else holds.
  lemma MirroringIs(s: State)
    requires HandlerOk(s) && s.handler.Mirroring?
    ensures var a, rested := s.handler.attempt, s.(handler := Attaching(s.handler.attempt));
            && Held(s.h.attempts, s.runs, a.id, a.runId, s.handler.info)
            && s.handler.info.attemptId == a.id && s.handler.info.runId == a.runId
            && forall k :: 0 <= k < |s.h.attempts| && s.h.attempts[k].id == a.id ==> Untold(rested, k)
  {
  }

  lemma MirrorBackKeepsInv(s: State, persisted: bool)
    requires Inv(s) && Next(s, MirrorBack(persisted)).Some?
    ensures Inv(Next(s, MirrorBack(persisted)).value)
  {
    hide *;
    MirroredBackState(s, persisted);
    InvHandler(s);
    MirroringIs(s);
    HandlerRests(s, Attaching(s.handler.attempt));
    MirrorKeepsInv(s.(handler := Attaching(s.handler.attempt)), s.handler.info, persisted);
  }

  lemma ReadBackKeepsInv(s: State)
    requires Inv(s) && Next(s, ReadBack).Some?
    ensures Inv(Next(s, ReadBack).value)
  {
    hide Answers, HistoryValid, Coherent;
    var a := s.handler.attempt;
    if a.runId in s.runs {
      EntitledReads(s, a.id, a.runId);
    } else {
      HandlerRests(s, Attaching(a));
    }
  }

  lemma AttachState(s: State, w: nat)
    requires Next(s, Attach(w)).Some?
    ensures s.handler.Attaching? && w !in s.watchers
    ensures Next(s, Attach(w)).value == Attached(s, w, s.handler.attempt.id, s.handler.attempt.runId).(handler := Idle)
  {
    hide Attached;
  }

  lemma OneMoreWatcher(xs: seq<Attempt>, runs: map<Id, RunInfo>, used: set<Id>, watchers: map<nat, Watch>, w: nat, v: Watch)
    requires WatchersOk(xs, runs, used, watchers) && OneWatcherEach(watchers)
    requires Entitled(xs, runs, used, v.attemptId, v.runId) && v.local.Waiting? && Unwatched(watchers, v.attemptId)
    ensures WatchersOk(xs, runs, used, watchers[w := v]) && OneWatcherEach(watchers[w := v])
  {
    hide Entitled, Held;
    var after := watchers[w := v];
    forall u | u in after
      ensures WatchOk(xs, runs, used, after[u])
    {
      if u != w {
        assert WatchOk(xs, runs, used, watchers[u]);
      }
    }
  }

  lemma AloneIs(s: State, a: Attempt)
    requires HandlerAlone(s, a)
    ensures Unwatched(s.watchers, a.id) && Entitled(s.h.attempts, s.runs, s.used, a.id, a.runId)
  {
    hide Unwatched, Entitled;
  }

  lemma AttachKeepsInv(s: State, w: nat)
    requires Inv(s) && Next(s, Attach(w)).Some?
    ensures Inv(Next(s, Attach(w)).value)
  {
    AttachState(s, w);
    hide Inv, Next, HandlerOk, HandlerAlone, WatchersOk, OneWatcherEach, Entitled, Unwatched;
    InvHandler(s);
    PendingAlone(s);
    var t, a := Next(s, Attach(w)).value, s.handler.attempt;
    AloneIs(s, a);
    AloneRests(s, a);
    HandlerRests(s, Idle);
    if !s.closed {
      InvSound(s);
      InvParts(s);
      OneMoreWatcher(s.h.attempts, s.runs, s.used, s.watchers, w, Watch(a.id, a.runId, Waiting));
      IdleIs(t);
      NothingLeft(t);
      InvOf(t);
    }
  }

  // ---------------------------------------------------------------- edits and publications

  ghost predicate SameButPublication(xs: seq<Attempt>, ys: seq<Attempt>) {
    && |xs| == |ys|
    && (forall i :: 0 <= i < |xs| ==> ys[i].(publication := xs[i].publication) == xs[i])
  }

  lemma PublishedAttempts(s: State, ys: seq<Attempt>)
    requires AttemptsOk(s.runs, s.used, s.h.attempts) && RunIdsDistinct(s.h.attempts)
    requires WatchersOk(s.h.attempts, s.runs, s.used, s.watchers)
    requires SameButPublication(s.h.attempts, ys)
    ensures AttemptsOk(s.runs, s.used, ys) && RunIdsDistinct(ys) && WatchersOk(ys, s.runs, s.used, s.watchers)
  {
    forall i | 0 <= i < |ys|
      ensures AttemptOk(s.runs, s.used, ys[i]) && ys[i].runId == s.h.attempts[i].runId
    {
      assert ys[i].(publication := s.h.attempts[i].publication) == s.h.attempts[i];
      assert AttemptOk(s.runs, s.used, s.h.attempts[i]);
    }
    forall w | w in s.watchers
      ensures WatchOk(ys, s.runs, s.used, s.watchers[w])
    {
      assert WatchOk(s.h.attempts, s.runs, s.used, s.watchers[w]);
    }
  }

  lemma EditKeepsInv(s: State, g: History, log: Log)
    requires Inv(s) && Serving(s) && Sound(g, log) && SameButPublication(s.h.attempts, g.attempts) && Dated(g, s.clock)
    ensures Inv(s.(h := g, log := log))
  {
    PublishedAttempts(s, g.attempts);
  }

  lemma IsSound(h: History, log: Log)
    requires HistoryValid(h) && Coherent(h, log)
    ensures Sound(h, log)
  {
    hide HistoryValid, Coherent;
  }

  lemma TaskEdits(h: History, m: Mutation, taskId: Id)
    requires Accepted(h, m, true) && (m.PatchTask? || m.SetArchived?) && m.taskId == taskId
    ensures var g, ti := Publish(h, m, true), FirstTask(h.tasks, taskId);
            && HistoryValid(g) && Edits(h, g, ti) && RevisionStep(h, g, ti) && g.attempts == h.attempts
            && h.tasks[ti].id == taskId && g.tasks[ti].id == taskId
            && g.tasks[ti].revision == h.tasks[ti].revision + 1 && h.tasks[ti].revision == m.expected
  {
    hide HistoryValid;
  }

  lemma TaskEditSound(h: History, log: Log, m: Mutation, taskId: Id)
    requires Sound(h, log) && Accepted(h, m, true)
    requires (m.PatchTask? || m.SetArchived?) && m.taskId == taskId
    ensures var g := Publish(h, m, true);
            var ti := FirstTask(g.tasks, taskId);
            && ti < |g.tasks| && ti < |h.tasks| && h.tasks[ti].id == taskId && g.tasks[ti].id == taskId
            && ti == FirstTask(h.tasks, taskId)
            && g.tasks[ti].revision == h.tasks[ti].revision + 1 && h.tasks[ti].revision == m.expected
            && g.attempts == h.attempts
            && Sound(g, Logged(log, g.tasks[ti]))
  {
    var g, ti := Publish(h, m, true), FirstTask(h.tasks, taskId);
    TaskEdits(h, m, taskId);
    assert Coherent(h, log);
    hide *;
    ValidShape(g);
    TaskAt(g, ti);
    EditKeepsCoherent(h, g, ti, log);
    IsSound(g, Logged(log, g.tasks[ti]));
  }

  lemma CreateSound(h: History, log: Log, t: Task)
    requires Sound(h, log) && Accepted(h, CreateTask(t), true) && t.attempts == [] && t.outcome.Unavailable?
    ensures var g := Publish(h, CreateTask(t), true);
            var ti := FirstTask(g.tasks, t.id);
            && ti == |h.tasks| < |g.tasks| && g.tasks[ti] == t && g.attempts == h.attempts
            && Sound(g, Logged(log, t))
  {
    var g := Publish(h, CreateTask(t), true);
    ValidShape(g);
    assert g.tasks[|h.tasks|] == t;
    TaskAt(g, |h.tasks|);
    CreateKeepsCoherent(h, g, t, log);
  }

  lemma LinkEdits(h: History, m: Mutation)
    requires Accepted(h, m, true) && m.LinkPublication?
    ensures var g, ti := Publish(h, m, true), FirstTask(h.tasks, m.context.taskId);
            && HistoryValid(g) && Edits(h, g, ti) && RevisionStep(h, g, ti) && SameButPublication(h.attempts, g.attempts)
            && g.tasks[ti].revision == h.tasks[ti].revision && g.tasks[ti].intent == h.tasks[ti].intent
  {
    hide HistoryValid;
  }

  lemma LinkSound(h: History, log: Log, m: Mutation)
    requires Sound(h, log) && Accepted(h, m, true) && m.LinkPublication?
    ensures var g := Publish(h, m, true); Sound(g, log) && SameButPublication(h.attempts, g.attempts)
  {
    var g, ti := Publish(h, m, true), FirstTask(h.tasks, m.context.taskId);
    LinkEdits(h, m);
    ValidShape(g);
    assert Coherent(h, log);
    EditKeepsCoherent(h, g, ti, log);
    hide HistoryValid, Accepted, Publish, Lineage, ViewsAgree, OutcomesNamed, LogCurrent, Shape;
    assert (h.tasks[ti].id, h.tasks[ti].revision) in log.intents;
    assert Logged(log, g.tasks[ti]) == log;
  }

  lemma EditedIs(s: State, taskId: Id, m: Mutation, persisted: bool)
    ensures var g, t := Publish(s.h, m, persisted), Edited(s, taskId, m, persisted);
            var ti := FirstTask(g.tasks, taskId);
            t == if Accepted(s.h, m, persisted) && ti < |g.tasks| then s.(h := g, log := Logged(s.log, g.tasks[ti])) else s.(h := g)
    ensures !Accepted(s.h, m, persisted) ==> Edited(s, taskId, m, persisted) == s
  {
    PublishedOrNot(s.h, m, persisted);
    hide Publish, Accepted, Logged;
  }

  lemma AcceptedIsWritten(h: History, m: Mutation, persisted: bool)
    requires Accepted(h, m, persisted)
    ensures persisted && Accepted(h, m, true)
  {
    hide HistoryValid;
  }

  lemma SameAttempts(h: History, g: History)
    requires g.attempts == h.attempts
    ensures SameButPublication(h.attempts, g.attempts)
  {
  }

  lemma CreateKeepsInv(s: State, t: Task, persisted: bool)
    requires Inv(s) && Serving(s) && t.attempts == [] && t.outcome.Unavailable? && t.createdAt <= s.clock
    ensures Inv(Edited(s, t.id, CreateTask(t), persisted))
  {
    hide *;
    InvSound(s);
    EditedIs(s, t.id, CreateTask(t), persisted);
    if Accepted(s.h, CreateTask(t), persisted) {
      AcceptedIsWritten(s.h, CreateTask(t), persisted);
      CreateSound(s.h, s.log, t);
      SameAttempts(s.h, Publish(s.h, CreateTask(t), persisted));
      InvParts(s);
      MutationKeepsDates(s.h, CreateTask(t), persisted, s.clock);
      EditKeepsInv(s, Edited(s, t.id, CreateTask(t), persisted).h, Edited(s, t.id, CreateTask(t), persisted).log);
    }
  }

  lemma TaskEditKeepsInv(s: State, taskId: Id, m: Mutation, persisted: bool)
    requires Inv(s) && Serving(s) && (m.PatchTask? || m.SetArchived?) && m.taskId == taskId
    ensures Inv(Edited(s, taskId, m, persisted))
  {
    hide *;
    InvSound(s);
    EditedIs(s, taskId, m, persisted);
    if Accepted(s.h, m, persisted) {
      AcceptedIsWritten(s.h, m, persisted);
      TaskEditSound(s.h, s.log, m, taskId);
      SameAttempts(s.h, Publish(s.h, m, persisted));
      InvParts(s);
      MutationKeepsDates(s.h, m, persisted, s.clock);
      EditKeepsInv(s, Edited(s, taskId, m, persisted).h, Edited(s, taskId, m, persisted).log);
    }
  }

  lemma LinkKeepsInv(s: State, m: Mutation, persisted: bool)
    requires Inv(s) && Serving(s) && m.LinkPublication?
    ensures Inv(s.(h := Publish(s.h, m, persisted)))
  {
    assert Sound(s.h, s.log);
    hide Inv, Sound, Apply;
    if Accepted(s.h, m, persisted) {
      LinkSound(s.h, s.log, m);
      InvParts(s);
      MutationKeepsDates(s.h, m, persisted, s.clock);
      EditKeepsInv(s, Publish(s.h, m, persisted), s.log);
    }
  }

  lemma RequestStepKeepsInv(s: State, step: Step)
    requires Inv(s) && (step.Create? || step.Edit? || step.Archive? || step.Publicize?) && Next(s, step).Some?
    ensures Inv(Next(s, step).value)
  {
    hide Inv, Edited, Publish;
    match step
    case Create(id, intent, persisted) => CreateKeepsInv(s, NewTask(id, intent, s.clock), persisted);
    case Edit(taskId, expected, patch, persisted) =>
      TaskEditKeepsInv(s, taskId, PatchTask(taskId, expected, patch, s.clock), persisted);
    case Archive(taskId, expected, archive, persisted) =>
      TaskEditKeepsInv(s, taskId, SetArchived(taskId, expected, archive, s.clock), persisted);
    case Publicize(context, p, persisted) => LinkKeepsInv(s, LinkPublication(context, p, s.clock), persisted);
  }

  // ---------------------------------------------------------------- shutdown and restart

  lemma {:induction false} LeftoversListed(xs: seq<Attempt>, from: nat)
    requires from <= |xs|
    ensures forall i :: 0 <= i < |Leftovers(xs, from)| ==>
              var r := Leftovers(xs, from)[i];
              from <= r.k < |xs| && !xs[r.k].status.Terminal()
              && xs[r.k].id == r.attemptId && xs[r.k].taskId == r.taskId && xs[r.k].runId == r.runId
    ensures forall i, j :: 0 <= i < j < |Leftovers(xs, from)| ==> Leftovers(xs, from)[i].k != Leftovers(xs, from)[j].k
    decreases |xs| - from
  {
    if from < |xs| {
      LeftoversListed(xs, from + 1);
    }
  }

  lemma ClockedState(s: State, step: Step)
    requires (step.Tick? || step.CloseGate? || step.CancelWatchers?) && Next(s, step).Some?
    ensures var t := Next(s, step).value; s.clock <= t.clock && t == s.(clock := t.clock, closed := t.closed, live := t.live)
  {
  }

  lemma RestartedState(s: State)
    ensures Next(s, Restart).Some?
    ensures Next(s, Restart).value == s.(handler := Idle, watchers := map[], closed := false, live := true,
                                         todo := Leftovers(s.h.attempts), recovery := Resting)
  {
    hide Leftovers;
  }

  // The clock and the gate are nobody's concern.
  lemma ClockedInv(s: State, t: State)
    requires Inv(s) && s.clock <= t.clock && t == s.(clock := t.clock, closed := t.closed, live := t.live)
    ensures Inv(t)
  {
    hide Sound, RunsOk, AttemptsOk, RunIdsDistinct, WatchersOk, OneWatcherEach, TodoOk, LeftoverOk, Held,
      Answers, Admissible, IsLast, Entitled, Unwatched;
  }

  lemma NobodyWatches(s: State)
    requires s.watchers == map[] && s.todo == Leftovers(s.h.attempts) && s.recovery.Resting?
    ensures WatchersOk(s.h.attempts, s.runs, s.used, s.watchers) && OneWatcherEach(s.watchers)
    ensures TodoOk(s.h.attempts, s.watchers, s.todo) && FoundOk(s)
  {
    LeftoversListed(s.h.attempts, 0);
    hide Leftovers;
  }

  lemma LifecycleStepKeepsInv(s: State, step: Step)
    requires Inv(s) && (step.Tick? || step.CloseGate? || step.CancelWatchers? || step.Restart?) && Next(s, step).Some?
    ensures Inv(Next(s, step).value)
  {
    hide *;
    var t := Next(s, step).value;
    if step.Restart? {
      RestartedState(s);
      InvSound(s);
      InvParts(s);
      NobodyWatches(t);
      IdleIs(t);
      InvOf(t);
    } else {
      ClockedState(s, step);
      ClockedInv(s, t);
    }
  }

  lemma LeftoverIsUntold(s: State, r: Leftover)
    requires Inv(s) && s.handler.Idle? && LeftoverOk(s.h.attempts, s.watchers, r)
    requires forall i :: 0 <= i < |s.todo| ==> s.todo[i].k != r.k
    requires s.recovery.Found? ==> s.recovery.item.k != r.k
    ensures Untold(s, r.k)
  {
  }

  lemma BusyHandlerMeansNothingLeft(s: State)
    requires Inv(s) && (s.todo != [] || s.recovery.Found?)
    ensures s.handler.Idle?
  {
  }

  lemma TodoTail(s: State)
    requires Inv(s) && s.todo != [] && s.recovery.Resting?
    ensures Inv(s.(todo := s.todo[1..]))
  {
    var rest := s.todo[1..];
    forall i | 0 <= i < |rest|
      ensures LeftoverOk(s.h.attempts, s.watchers, rest[i]) && !s.h.attempts[rest[i].k].status.Terminal()
    {
      assert LeftoverOk(s.h.attempts, s.watchers, s.todo[i + 1]);
    }
    BusyHandlerMeansNothingLeft(s);
  }

  lemma RestoreState(s: State, persisted: bool)
    requires Next(s, Restore(persisted)).Some?
    ensures s.todo != [] && s.recovery.Resting?
    ensures var r, t := s.todo[0], s.(todo := s.todo[1..]);
            Next(s, Restore(persisted)).value
            == if r.runId in s.runs then t.(recovery := Found(r, s.runs[r.runId]))
               else t.(h := Publish(s.h, MarkUnavailable(r.taskId, r.attemptId, s.clock), persisted))
  {
    hide Publish;
  }

  lemma FirstLeft(s: State)
    requires Inv(s) && s.todo != []
    ensures var r := s.todo[0];
            && LeftoverOk(s.h.attempts, s.watchers, r) && !s.h.attempts[r.k].status.Terminal()
            && s.h.attempts[r.k].taskId == r.taskId && s.h.attempts[r.k].id == r.attemptId && s.h.attempts[r.k].runId == r.runId
            && (forall i :: 0 <= i < |s.todo[1..]| ==> s.todo[1..][i].k != r.k)
            && AttemptOk(s.runs, s.used, s.h.attempts[r.k])
  {
    InvParts(s);
    assert LeftoverOk(s.h.attempts, s.watchers, s.todo[0]);
    hide Inv, HandlerOk, FoundOk, WatchersOk, Unwatched;
  }

  lemma FoundInv(s: State, r: Leftover, info: RunInfo)
    requires Inv(s) && s.recovery.Resting? && s.handler.Idle? && LeftoverOk(s.h.attempts, s.watchers, r)
    requires Held(s.h.attempts, s.runs, r.attemptId, r.runId, info)
    requires forall i :: 0 <= i < |s.todo| ==> s.todo[i].k != r.k
    ensures Inv(s.(recovery := Found(r, info)))
  {
    hide Sound, RunsOk, AttemptsOk, RunIdsDistinct, WatchersOk, OneWatcherEach, TodoOk, LeftoverOk, Held;
  }

  lemma RestoreMarkKeepsInv(s: State, t: State, r: Leftover, persisted: bool)
    requires Inv(s) && Inv(t) && t == s.(todo := t.todo) && t.handler.Idle? && t.recovery.Resting?
    requires LeftoverOk(s.h.attempts, s.watchers, r) && !s.h.attempts[r.k].status.Terminal()
    requires r.runId !in s.runs && forall i :: 0 <= i < |t.todo| ==> t.todo[i].k != r.k
    ensures Inv(t.(h := Publish(s.h, MarkUnavailable(r.taskId, r.attemptId, s.clock), persisted)))
  {
    InvSound(s);
    var m := MarkUnavailable(r.taskId, r.attemptId, s.clock);
    PublishedOrNot(s.h, m, persisted);
    hide Inv, Sound, Publish, Accepted, HandlerOk;
    if Accepted(s.h, m, persisted) {
      MarkMoves(s.h, s.log, r.k, s.clock, persisted);
      LeftoverIsUntold(t, r);
      InvParts(s);
      MutationKeepsDates(s.h, m, persisted, s.clock);
      MoveKeepsInv(t, Publish(s.h, m, persisted), r.k);
    }
  }

  lemma RestoreKeepsInv(s: State, persisted: bool)
    requires Inv(s) && Next(s, Restore(persisted)).Some?
    ensures Inv(Next(s, Restore(persisted)).value)
  {
    hide *;
    RestoreState(s, persisted);
    FirstLeft(s);
    TodoTail(s);
    BusyHandlerMeansNothingLeft(s);
    InvParts(s);
    var r, t := s.todo[0], s.(todo := s.todo[1..]);
    if r.runId in s.runs {
      EntitledByIndex(s, r);
      EntitledReads(s, r.attemptId, r.runId);
      FoundInv(t, r, s.runs[r.runId]);
    } else {
      RestoreMarkKeepsInv(s, t, r, persisted);
    }
  }

  lemma EntitledByIndex(s: State, r: Leftover)
    requires Inv(s) && LeftoverOk(s.h.attempts, s.watchers, r)
    ensures Entitled(s.h.attempts, s.runs, s.used, r.attemptId, r.runId)
  {
    assert AttemptOk(s.runs, s.used, s.h.attempts[r.k]);
    forall i | 0 <= i < |s.h.attempts| && s.h.attempts[i].id == r.attemptId
      ensures s.h.attempts[i].runId == r.runId
    {
      assert i == r.k;
    }
  }

  lemma TodoWithWatcher(s: State, r: Leftover, after: map<nat, Watch>)
    requires TodoOk(s.h.attempts, s.watchers, s.todo) && LeftoverOk(s.h.attempts, s.watchers, r) && Shape(s.h)
    requires forall i :: 0 <= i < |s.todo| ==> s.todo[i].k != r.k
    requires forall v :: v in after ==> (v in s.watchers && after[v] == s.watchers[v]) || after[v].attemptId == r.attemptId
    ensures TodoOk(s.h.attempts, after, s.todo)
  {
    forall i | 0 <= i < |s.todo|
      ensures LeftoverOk(s.h.attempts, after, s.todo[i]) && !s.h.attempts[s.todo[i].k].status.Terminal()
    {
      assert LeftoverOk(s.h.attempts, s.watchers, s.todo[i]);
      assert s.h.attempts[s.todo[i].k].id != s.h.attempts[r.k].id;
    }
  }

  lemma LeftoverUnwatched(xs: seq<Attempt>, watchers: map<nat, Watch>, r: Leftover)
    requires LeftoverOk(xs, watchers, r)
    ensures Unwatched(watchers, r.attemptId)
  {
    hide Unwatched;
  }

  lemma SoundShape(h: History, log: Log)
    requires Sound(h, log)
    ensures Shape(h)
  {
    hide HistoryValid, Shape;
  }

  lemma AttachLeftover(s: State, r: Leftover, w: nat)
    requires Inv(s) && LeftoverOk(s.h.attempts, s.watchers, r) && s.recovery.Resting? && w !in s.watchers
    requires s.handler.Idle? && forall i :: 0 <= i < |s.todo| ==> s.todo[i].k != r.k
    ensures Inv(Attached(s, w, r.attemptId, r.runId))
  {
    hide Inv, Sound, Shape, HandlerOk, WatchersOk, OneWatcherEach, TodoOk, LeftoverOk, Entitled, Unwatched;
    InvSound(s);
    InvParts(s);
    var t := Attached(s, w, r.attemptId, r.runId);
    EntitledByIndex(s, r);
    LeftoverUnwatched(s.h.attempts, s.watchers, r);
    SoundShape(s.h, s.log);
    OneMoreWatcher(s.h.attempts, s.runs, s.used, s.watchers, w, Watch(r.attemptId, r.runId, Waiting));
    TodoWithWatcher(s, r, t.watchers);
    IdleIs(t);
    RestingFound(s, t);
    InvOf(t);
  }

  // What the registry holds once the found run has been mirrored, or needed no mirroring.
  function RestoredHistory(s: State, persisted: bool): History
    requires s.recovery.Found?
  {
    if NeedsRunUpdate(s.h, s.recovery.info) then Publish(s.h, MirrorRun(s.recovery.info, s.clock), persisted) else s.h
  }

  // The found attempt is nobody else's to move.
  lemma FoundIsUntold(s: State, k: nat)
    requires Inv(s) && s.recovery.Found? && k < |s.h.attempts| && s.h.attempts[k].id == s.recovery.info.attemptId
    ensures k == s.recovery.item.k && Untold(s.(recovery := Resting), k)
  {
    BusyHandlerMeansNothingLeft(s);
    hide HandlerOk, HistoryValid, AttemptsOk, WatchersOk;
  }

  lemma RestingInv(s: State)
    requires Inv(s) && s.recovery.Found?
    ensures Inv(s.(recovery := Resting)) && Held(s.h.attempts, s.runs, s.recovery.info.attemptId, s.recovery.info.runId, s.recovery.info)
    ensures LeftoverOk(s.h.attempts, s.watchers, s.recovery.item)
  {
    BusyHandlerMeansNothingLeft(s);
    hide Sound, RunsOk, AttemptsOk, RunIdsDistinct, WatchersOk, OneWatcherEach, TodoOk, LeftoverOk;
  }

  lemma LeftoverMoves(h: History, g: History, k: nat, watchers: map<nat, Watch>, r: Leftover)
    requires Moves(h, g, k) && LeftoverOk(h.attempts, watchers, r)
    ensures LeftoverOk(g.attempts, watchers, r)
  {
    hide Forward, Unwatched;
  }

  lemma MirrorKeepsLeftover(s: State, info: RunInfo, persisted: bool, r: Leftover)
    requires Inv(s) && Held(s.h.attempts, s.runs, info.attemptId, info.runId, info) && LeftoverOk(s.h.attempts, s.watchers, r)
    ensures LeftoverOk(Publish(s.h, MirrorRun(info, s.clock), persisted).attempts, s.watchers, r)
  {
    hide *;
    var m := MirrorRun(info, s.clock);
    InvSound(s);
    PublishedOrNot(s.h, m, persisted);
    if Accepted(s.h, m, persisted) {
      MirrorMoves(s.h, s.log, s.runs, info, s.clock, persisted);
      LeftoverMoves(s.h, Publish(s.h, m, persisted), FirstAttempt(s.h.attempts, ByRun(info.runId, info.attemptId)), s.watchers, r);
    }
  }

  lemma RestoredHistoryIs(s: State, persisted: bool)
    requires s.recovery.Found?
    ensures var g := RestoredHistory(s, persisted); g == s.h || g == Publish(s.h, MirrorRun(s.recovery.info, s.clock), persisted)
  {
    hide Publish, NeedsRunUpdate;
  }

  lemma RestoredInv(s: State, persisted: bool)
    requires Inv(s) && s.recovery.Found?
    ensures Inv(s.(h := RestoredHistory(s, persisted), recovery := Resting))
    ensures LeftoverOk(RestoredHistory(s, persisted).attempts, s.watchers, s.recovery.item)
  {
    var r, info, rested := s.recovery.item, s.recovery.info, s.(recovery := Resting);
    hide *;
    RestingInv(s);
    forall k | 0 <= k < |s.h.attempts| && s.h.attempts[k].id == info.attemptId
      ensures Untold(rested, k)
    {
      FoundIsUntold(s, k);
    }
    MirrorKeepsInv(rested, info, persisted);
    MirrorKeepsLeftover(s, info, persisted, r);
    RestoredHistoryIs(s, persisted);
  }

  lemma RestoreMirroredState(s: State, persisted: bool, w: nat)
    requires Next(s, RestoreMirrors(persisted, w)).Some?
    ensures s.recovery.Found? && w !in s.watchers
    ensures var g := s.(h := RestoredHistory(s, persisted), recovery := Resting);
            Next(s, RestoreMirrors(persisted, w)).value
            == if s.recovery.info.status.Terminal() then g else Attached(g, w, s.recovery.item.attemptId, s.recovery.item.runId)
  {
    hide NeedsRunUpdate, Publish, Attached;
  }

  lemma FoundIs(s: State)
    requires FoundOk(s) && s.recovery.Found?
    ensures forall i :: 0 <= i < |s.todo| ==> s.todo[i].k != s.recovery.item.k
  {
  }

  lemma RestoreMirrorKeepsInv(s: State, persisted: bool, w: nat)
    requires Inv(s) && Next(s, RestoreMirrors(persisted, w)).Some?
    ensures Inv(Next(s, RestoreMirrors(persisted, w)).value)
  {
    hide *;
    RestoreMirroredState(s, persisted, w);
    RestoredInv(s, persisted);
    BusyHandlerMeansNothingLeft(s);
    InvParts(s);
    FoundIs(s);
    if !s.recovery.info.status.Terminal() {
      AttachLeftover(s.(h := RestoredHistory(s, persisted), recovery := Resting), s.recovery.item, w);
    }
  }

  // ---------------------------------------------------------------- every step, every run

  lemma StepKeepsInv(s: State, step: Step)
    requires Inv(s) && Next(s, step).Some?
    ensures Inv(Next(s, step).value)
  {
    hide Inv, Next;
    match step
    case Tick(_) => LifecycleStepKeepsInv(s, step);
    case RunMoves(_) => RunStepKeepsInv(s, step);
    case RunForgotten(_) => RunStepKeepsInv(s, step);
    case Create(_, _, _) => RequestStepKeepsInv(s, step);
    case Edit(_, _, _, _) => RequestStepKeepsInv(s, step);
    case Archive(_, _, _, _) => RequestStepKeepsInv(s, step);
    case Publicize(_, _, _) => RequestStepKeepsInv(s, step);
    case Check(_, _, _, _, _) => CheckKeepsInv(s, step);
    case Append(persisted) => AppendKeepsInv(s, persisted);
    case Launch(info) => LaunchKeepsInv(s, info);
    case LaunchFails(persisted) => LaunchFailsKeepsInv(s, persisted);
    case ReadBack => ReadBackKeepsInv(s);
    case MirrorBack(persisted) => MirrorBackKeepsInv(s, persisted);
    case Attach(w) => AttachKeepsInv(s, w);
    case WatchReads(w) => WatchReadKeepsInv(s, w);
    case WatchDecides(_) => WatchStepKeepsInv(s, step);
    case WatchWrites(w, persisted) => WatchWriteKeepsInv(s, w, persisted);
    case WatchQuits(_) => WatchStepKeepsInv(s, step);
    case CloseGate => LifecycleStepKeepsInv(s, step);
    case CancelWatchers => LifecycleStepKeepsInv(s, step);
    case Restart => LifecycleStepKeepsInv(s, step);
    case Restore(persisted) => RestoreKeepsInv(s, persisted);
    case RestoreMirrors(persisted, w) => RestoreMirrorKeepsInv(s, persisted, w);
  }
}
