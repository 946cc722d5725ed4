// What holds over whole runs of the attempt protocol.
module ProtocolRuns {
  import opened Wrappers
  import opened Text
  import opened TaskHistory
  import opened HistoryInvariants
  import opened Admission
  import opened Acceptance
  import opened Protocol
  import opened ProtocolInvariant

  // The state after a series of steps, or None where one of them cannot happen.
  function After(s: State, steps: seq<Step>): Option<State> {
    if steps == [] then Some(s)
    else
      var before := After(s, steps[..|steps| - 1]);
      if before.None? then None else Next(before.value, steps[|steps| - 1])
  }

  lemma StartInv(clock: Time)
    ensures Inv(Start(clock))
  {
  }

  lemma {:induction false} RunKeepsInv(s: State, steps: seq<Step>)
    requires Inv(s) && After(s, steps).Some?
    ensures Inv(After(s, steps).value)
  {
    if steps != [] {
      RunKeepsInv(s, steps[..|steps| - 1]);
      StepKeepsInv(After(s, steps[..|steps| - 1]).value, steps[|steps| - 1]);
    }
  }

  predicate Reachable(s: State, clock: Time, steps: seq<Step>) {
    After(Start(clock), steps) == Some(s)
  }

  // ---------------------------------------------------------------- in every reachable state

  // The two stored views agree, and an available outcome names a succeeded attempt.
  lemma ViewsAlwaysAgree(s: State, clock: Time, steps: seq<Step>, i: nat)
    requires Reachable(s, clock, steps) && i < |s.h.tasks|
    ensures Keys(s.h.tasks[i].attempts) == Projection(s.h.attempts, s.h.tasks[i].id)
    ensures OutcomeNamed(s.h.attempts, s.h.tasks[i])
  {
    StartInv(clock);
    RunKeepsInv(Start(clock), steps);
  }

  // Attempt j's chain of parents ends at its task's first attempt, after `length` links.
  ghost predicate ChainToRoot(xs: seq<Attempt>, j: nat, length: nat)
    requires j < |xs|
    decreases length
  {
    if xs[j].parent.None? then length == 0 && forall i :: 0 <= i < j ==> xs[i].taskId != xs[j].taskId
    else
      length > 0 && exists i :: 0 <= i < j && xs[j].parent == Some(xs[i].id) && xs[i].taskId == xs[j].taskId
                                && xs[i].status.Terminal() && ChainToRoot(xs, i, length - 1)
  }

  lemma {:induction false} ChainEnds(xs: seq<Attempt>, j: nat, kinds: map<Id, ChildKind>) returns (length: nat)
    requires Lineage(xs, kinds) && j < |xs|
    ensures ChainToRoot(xs, j, length) && length <= j
    decreases j
  {
    assert LineageAt(xs, j, kinds);
    if xs[j].parent.None? {
      length := 0;
    } else {
      var i :| 0 <= i < j && ParentAt(xs, j, i, kinds);
      var shorter := ChainEnds(xs, i, kinds);
      length := shorter + 1;
    }
  }

  // Lineage is a tree: every chain of parents is finite, stays in its task, runs over
  // ended attempts and reaches the one root, and each child fits how its parent ended.
  lemma LineageIsATree(s: State, clock: Time, steps: seq<Step>, j: nat)
    requires Reachable(s, clock, steps) && j < |s.h.attempts|
    ensures exists length: nat :: length <= j && ChainToRoot(s.h.attempts, j, length)
    ensures LineageAt(s.h.attempts, j, s.log.kinds)
  {
    StartInv(clock);
    RunKeepsInv(Start(clock), steps);
    var length := ChainEnds(s.h.attempts, j, s.log.kinds);
  }

  // At most one attempt is queued in the whole history, and no key is used twice in a task.
  lemma QueueAndKeys(s: State, clock: Time, steps: seq<Step>, i: nat, j: nat)
    requires Reachable(s, clock, steps) && i < j < |s.h.attempts|
    ensures !(s.h.attempts[i].status.Queued? && s.h.attempts[j].status.Queued?)
    ensures s.h.attempts[i].taskId == s.h.attempts[j].taskId ==> s.h.attempts[i].key != s.h.attempts[j].key
  {
    StartInv(clock);
    RunKeepsInv(Start(clock), steps);
  }

  // An attempt is never ahead of its run while the run is known, and ends as the run ended.
  lemma NeverAheadOfRun(s: State, clock: Time, steps: seq<Step>, i: nat)
    requires Reachable(s, clock, steps) && i < |s.h.attempts| && s.h.attempts[i].runId in s.runs
    ensures var a, run := s.h.attempts[i], s.runs[s.h.attempts[i].runId];
            && run.runId == a.runId && run.attemptId == a.id
            && (a.status.Terminal() ==> EndsLike(a.status, run.status) && a.finishedAt == run.finishedAt)
            && (a.status.Terminal() ==> run.status.RunSucceeded? || run.status.RunFailed? || run.status.RunCanceled?)
            && (a.status.Running? ==> !run.status.RunQueued?)
  {
    StartInv(clock);
    RunKeepsInv(Start(clock), steps);
    assert AttemptOk(s.runs, s.used, s.h.attempts[i]);
  }

  // Every attempt carries the intent its task had at the revision it was admitted at.
  lemma IntentAsAdmitted(s: State, clock: Time, steps: seq<Step>, i: nat)
    requires Reachable(s, clock, steps) && i < |s.h.attempts|
    ensures var e := (s.h.attempts[i].taskId, s.h.attempts[i].revision);
            e in s.log.intents && s.log.intents[e] == s.h.attempts[i].intent
  {
    StartInv(clock);
    RunKeepsInv(Start(clock), steps);
  }

  // ---------------------------------------------------------------- attempts over time

  // b is a later: the same admission, no further back, and unchanged once it had ended.
  predicate Later(a: Attempt, b: Attempt) {
    && SameIdentity(a.(publication := b.publication), b)
    && Forward(a, b)
    && Rank(a.status) <= Rank(b.status)
  }

  // The attempt's admission has got past the point where it could be rolled back.
  predicate Settled(s: State, i: nat) {
    i < |s.h.attempts| && (s.handler.Pending? ==> i < |s.h.attempts| - 1)
  }

  lemma LaterIsTransitive(a: Attempt, b: Attempt, c: Attempt)
    requires Later(a, b) && Later(b, c)
    ensures Later(a, c)
  {
  }

  predicate AllLater(xs: seq<Attempt>, ys: seq<Attempt>) {
    |xs| <= |ys| && forall i :: 0 <= i < |xs| ==> Later(xs[i], ys[i])
  }

  lemma EditIsLater(h: History, log: Log, m: Mutation, persisted: bool)
    requires Sound(h, log) && (m.CreateTask? || m.PatchTask? || m.SetArchived? || m.LinkPublication?)
    ensures AllLater(h.attempts, Publish(h, m, persisted).attempts)
    ensures |Publish(h, m, persisted).attempts| == |h.attempts|
  {
    hide HistoryValid, Coherent;
    if m.LinkPublication? && Accepted(h, m, persisted) {
      LinkSound(h, log, m);
    }
  }

  lemma MirrorIsLater(h: History, log: Log, runs: map<Id, RunInfo>, info: RunInfo, now: Time, persisted: bool)
    requires Sound(h, log) && Held(h.attempts, runs, info.attemptId, info.runId, info)
    ensures AllLater(h.attempts, Publish(h, MirrorRun(info, now), persisted).attempts)
    ensures |Publish(h, MirrorRun(info, now), persisted).attempts| == |h.attempts|
  {
    hide HistoryValid, Coherent, Held, Mirrored;
    if Accepted(h, MirrorRun(info, now), persisted) {
      MirrorMoves(h, log, runs, info, now, persisted);
    }
  }

  lemma MarkIsLater(h: History, log: Log, k: nat, now: Time, persisted: bool)
    requires Sound(h, log) && k < |h.attempts| && !h.attempts[k].status.Terminal()
    ensures var g := Publish(h, MarkUnavailable(h.attempts[k].taskId, h.attempts[k].id, now), persisted);
            AllLater(h.attempts, g.attempts) && |g.attempts| == |h.attempts|
  {
    hide HistoryValid, Coherent, Marked;
    if Accepted(h, MarkUnavailable(h.attempts[k].taskId, h.attempts[k].id, now), persisted) {
      MarkMoves(h, log, k, now, persisted);
    }
  }

  lemma RequestStepIsLater(s: State, step: Step, i: nat)
    requires Sound(s.h, s.log) && Next(s, step).Some? && Settled(s, i)
    requires step.Create? || step.Edit? || step.Archive? || step.Publicize?
    ensures var t := Next(s, step).value; Settled(t, i) && Later(s.h.attempts[i], t.h.attempts[i])
  {
    hide HistoryValid, Coherent, Apply, Publish, Accepted;
    match step
    case Create(id, intent, persisted) => EditIsLater(s.h, s.log, CreateTask(NewTask(id, intent, s.clock)), persisted);
    case Edit(taskId, expected, patch, persisted) => EditIsLater(s.h, s.log, PatchTask(taskId, expected, patch, s.clock), persisted);
    case Archive(taskId, expected, archive, persisted) =>
      EditIsLater(s.h, s.log, SetArchived(taskId, expected, archive, s.clock), persisted);
    case Publicize(context, p, persisted) => EditIsLater(s.h, s.log, LinkPublication(context, p, s.clock), persisted);
  }

  // Steps that leave the registry alone.
  predicate Quiet(step: Step) {
    || step.Tick? || step.RunMoves? || step.RunForgotten? || step.Check? || step.Launch? || step.ReadBack? || step.Attach?
    || step.WatchReads? || step.WatchDecides? || step.WatchQuits? || step.CloseGate? || step.CancelWatchers? || step.Restart?
  }

  lemma QuietStep(s: State, step: Step)
    requires Next(s, step).Some? && Quiet(step)
    ensures Next(s, step).value.h == s.h && Next(s, step).value.log == s.log
    ensures Next(s, step).value.handler.Pending? ==> s.handler.Pending?
  {
    hide Decide, NeedsRunUpdate, Leftovers, Built, InfoConsistent, Reached;
  }

  lemma AppendIsLater(s: State, persisted: bool, i: nat)
    requires Sound(s.h, s.log) && HandlerOk(s) && Next(s, Append(persisted)).Some? && Settled(s, i)
    ensures var t := Next(s, Append(persisted)).value; Settled(t, i) && Later(s.h.attempts[i], t.h.attempts[i])
  {
    hide Next, Publish, Accepted, Sound, Admissible, HandlerOk;
    AppendedState(s, persisted);
    CheckedIs(s);
    var a := s.handler.attempt;
    if Accepted(s.h, AppendAttempt(a.taskId, a), persisted) {
      AppendSound(s.h, s.log, a, Kind(s.handler.req), persisted);
    }
  }

  lemma LaunchFailsIsLater(s: State, persisted: bool, i: nat)
    requires Sound(s.h, s.log) && HandlerOk(s) && Next(s, LaunchFails(persisted)).Some? && Settled(s, i)
    ensures var t := Next(s, LaunchFails(persisted)).value; Settled(t, i) && Later(s.h.attempts[i], t.h.attempts[i])
  {
    hide Next, Publish, Accepted, Sound, HandlerOk, IsLast;
    RolledBackState(s, persisted);
    PendingIs(s);
    var a := s.handler.attempt;
    var m := RemoveAttempt(a.taskId, a.id, s.handler.previous);
    PublishedOrNot(s.h, m, persisted);
    if Accepted(s.h, m, persisted) {
      RemoveSound(s.h, s.log, a, s.handler.previous, persisted);
    }
  }

  lemma MirrorBackIsLater(s: State, persisted: bool)
    requires Sound(s.h, s.log) && HandlerOk(s) && Next(s, MirrorBack(persisted)).Some?
    ensures AllLater(s.h.attempts, Next(s, MirrorBack(persisted)).value.h.attempts)
    ensures |Next(s, MirrorBack(persisted)).value.h.attempts| == |s.h.attempts|
  {
    hide HistoryValid, Coherent, Apply, Publish, Accepted;
    MirrorIsLater(s.h, s.log, s.runs, s.handler.info, s.clock, persisted);
  }

  lemma RestoreIsLater(s: State, persisted: bool)
    requires Sound(s.h, s.log) && TodoOk(s.h.attempts, s.watchers, s.todo) && Next(s, Restore(persisted)).Some?
    ensures AllLater(s.h.attempts, Next(s, Restore(persisted)).value.h.attempts)
    ensures |Next(s, Restore(persisted)).value.h.attempts| == |s.h.attempts|
  {
    hide HistoryValid, Coherent, Apply, Publish, Accepted;
    assert LeftoverOk(s.h.attempts, s.watchers, s.todo[0]);
    MarkIsLater(s.h, s.log, s.todo[0].k, s.clock, persisted);
  }

  lemma WriteIsLater(s: State, w: nat, persisted: bool)
    requires Sound(s.h, s.log) && WatchersOk(s.h.attempts, s.runs, s.used, s.watchers) && Next(s, WatchWrites(w, persisted)).Some?
    ensures AllLater(s.h.attempts, Next(s, WatchWrites(w, persisted)).value.h.attempts)
    ensures |Next(s, WatchWrites(w, persisted)).value.h.attempts| == |s.h.attempts|
  {
    hide HistoryValid, Coherent, Apply, Publish, Accepted;
    assert WatchOk(s.h.attempts, s.runs, s.used, s.watchers[w]);
    MirrorIsLater(s.h, s.log, s.runs, s.watchers[w].local.info, s.clock, persisted);
  }

  lemma FoundHolds(s: State)
    requires FoundOk(s) && s.recovery.Found?
    ensures Held(s.h.attempts, s.runs, s.recovery.info.attemptId, s.recovery.info.runId, s.recovery.info)
  {
    hide LeftoverOk;
  }

  lemma AttachedKeepsHistory(s: State, w: nat, r: Leftover)
    ensures Attached(s, w, r.attemptId, r.runId).h == s.h
  {
  }

  lemma AllAreLater(xs: seq<Attempt>)
    ensures AllLater(xs, xs)
  {
  }

  lemma RestoreMirrorIsLater(s: State, persisted: bool, w: nat)
    requires Sound(s.h, s.log) && FoundOk(s) && Next(s, RestoreMirrors(persisted, w)).Some?
    ensures AllLater(s.h.attempts, Next(s, RestoreMirrors(persisted, w)).value.h.attempts)
    ensures |Next(s, RestoreMirrors(persisted, w)).value.h.attempts| == |s.h.attempts|
  {
    hide *;
    RestoreMirroredState(s, persisted, w);
    FoundHolds(s);
    RestoredHistoryIs(s, persisted);
    AttachedKeepsHistory(s.(h := RestoredHistory(s, persisted), recovery := Resting), w, s.recovery.item);
    MirrorIsLater(s.h, s.log, s.runs, s.recovery.info, s.clock, persisted);
    AllAreLater(s.h.attempts);
  }

  lemma MirrorStepIsLater(s: State, step: Step, i: nat)
    requires Inv(s) && Next(s, step).Some? && Settled(s, i)
    requires step.WatchWrites? || step.RestoreMirrors? || step.Restore?
    ensures var t := Next(s, step).value; Settled(t, i) && Later(s.h.attempts[i], t.h.attempts[i])
  {
    hide HistoryValid, Coherent, Answers, HandlerOk, Apply, Publish, Accepted, TodoOk, FoundOk, WatchersOk;
    match step
    case Restore(persisted) => RestoreIsLater(s, persisted);
    case WatchWrites(w, persisted) => WriteIsLater(s, w, persisted);
    case RestoreMirrors(persisted, w) => RestoreMirrorIsLater(s, persisted, w);
  }

  lemma QuietStepIsLater(s: State, step: Step, i: nat)
    requires Next(s, step).Some? && Quiet(step) && Settled(s, i)
    ensures var t := Next(s, step).value; Settled(t, i) && Later(s.h.attempts[i], t.h.attempts[i])
  {
    QuietStep(s, step);
    hide Next;
  }

  lemma MirrorBackStepIsLater(s: State, persisted: bool, i: nat)
    requires Sound(s.h, s.log) && HandlerOk(s) && Next(s, MirrorBack(persisted)).Some? && Settled(s, i)
    ensures var t := Next(s, MirrorBack(persisted)).value; Settled(t, i) && Later(s.h.attempts[i], t.h.attempts[i])
  {
    MirrorBackIsLater(s, persisted);
    hide HistoryValid, Coherent, Publish, HandlerOk;
  }

  lemma OthersAreQuiet(step: Step)
    ensures || Quiet(step) || step.Create? || step.Edit? || step.Archive? || step.Publicize?
            || step.WatchWrites? || step.RestoreMirrors? || step.Restore?
            || step.Append? || step.LaunchFails? || step.MirrorBack?
  {
  }

  lemma StepIsLater(s: State, step: Step, i: nat)
    requires Inv(s) && Next(s, step).Some? && Settled(s, i)
    ensures var t := Next(s, step).value; Settled(t, i) && Later(s.h.attempts[i], t.h.attempts[i])
  {
    hide *;
    InvSound(s);
    InvHandler(s);
    if step.Create? || step.Edit? || step.Archive? || step.Publicize? {
      RequestStepIsLater(s, step, i);
    } else if step.WatchWrites? || step.RestoreMirrors? || step.Restore? {
      MirrorStepIsLater(s, step, i);
    } else if step.Append? {
      AppendIsLater(s, step.persisted, i);
    } else if step.LaunchFails? {
      LaunchFailsIsLater(s, step.persisted, i);
    } else if step.MirrorBack? {
      MirrorBackStepIsLater(s, step.persisted, i);
    } else {
      OthersAreQuiet(step);
      QuietStepIsLater(s, step, i);
    }
  }

  // An admitted attempt stays where it is for good: its identity, key, parent, revision
  // and intent never change, its status never goes back, and an end is final.
  lemma {:induction false} AttemptsOnlyAdvance(s: State, steps: seq<Step>, i: nat)
    requires Inv(s) && After(s, steps).Some? && Settled(s, i)
    ensures var t := After(s, steps).value; Settled(t, i) && Later(s.h.attempts[i], t.h.attempts[i])
  {
    hide Inv;
    if steps != [] {
      var init := steps[..|steps| - 1];
      AttemptsOnlyAdvance(s, init, i);
      var m := After(s, init).value;
      RunKeepsInv(s, init);
      StepIsLater(m, steps[|steps| - 1], i);
      LaterIsTransitive(s.h.attempts[i], m.h.attempts[i], Next(m, steps[|steps| - 1]).value.h.attempts[i]);
    }
  }

  // ---------------------------------------------------------------- watchers

  lemma MirroredNeedsNothing(h: History, info: RunInfo, now: Time)
    requires Mirrored(h, info, now).Ok?
    ensures !NeedsRunUpdate(Mirrored(h, info, now).value, info)
  {
    var q, k := ByRun(info.runId, info.attemptId), FirstAttempt(h.attempts, ByRun(info.runId, info.attemptId));
    var g := Mirrored(h, info, now).value;
    assert forall i :: 0 <= i < |h.attempts| ==> q.Matches(g.attempts[i]) == q.Matches(h.attempts[i]);
    SearchSame(h.attempts, g.attempts, q, 0);
  }

  // The run has ended and the attempt says so, with its finish time.
  predicate EndsAs(a: Attempt, run: RunInfo) {
    && (run.status.RunSucceeded? || run.status.RunFailed? || run.status.RunCanceled?)
    && EndsLike(a.status, run.status) && a.finishedAt == run.finishedAt
  }

  lemma DecisionIsInformed(h: History, info: RunInfo, k: nat)
    requires Shape(h) && k < |h.attempts| && h.attempts[k].id == info.attemptId && Behind(h.attempts[k], info)
    requires InfoConsistent(info) && info.status.Terminal() && !NeedsRunUpdate(h, info)
    ensures EndsAs(h.attempts[k], info)
  {
    AttemptAt(h, k);
  }

  lemma WriteIsInformed(h: History, log: Log, runs: map<Id, RunInfo>, info: RunInfo, now: Time, persisted: bool, k: nat)
    requires Sound(h, log) && Held(h.attempts, runs, info.attemptId, info.runId, info) && info.status.Terminal()
    requires k < |h.attempts| && h.attempts[k].id == info.attemptId && Accepted(h, MirrorRun(info, now), persisted)
    ensures var g := Publish(h, MirrorRun(info, now), persisted);
            k < |g.attempts| && g.attempts[k].id == h.attempts[k].id && EndsAs(g.attempts[k], info)
  {
    ValidShape(h);
    AttemptAt(h, k);
    hide HistoryValid, Coherent, Shape;
    MirrorMoves(h, log, runs, info, now, persisted);
  }

  lemma WatcherDecides(s: State, w: nat, k: nat)
    requires Shape(s.h) && WatchersOk(s.h.attempts, s.runs, s.used, s.watchers)
    requires Next(s, WatchDecides(w)).Some? && w !in Next(s, WatchDecides(w)).value.watchers
    requires s.watchers[w].runId in s.runs && k < |s.h.attempts| && s.h.attempts[k].id == s.watchers[w].attemptId
    ensures EndsAs(s.h.attempts[k], s.runs[s.watchers[w].runId])
  {
    hide Shape, NeedsRunUpdate;
    assert WatchOk(s.h.attempts, s.runs, s.used, s.watchers[w]);
    DecisionIsInformed(s.h, s.watchers[w].local.info, k);
  }

  lemma WatcherWrites(s: State, w: nat, persisted: bool, k: nat)
    requires Sound(s.h, s.log) && WatchersOk(s.h.attempts, s.runs, s.used, s.watchers) && s.live
    requires Next(s, WatchWrites(w, persisted)).Some? && w !in Next(s, WatchWrites(w, persisted)).value.watchers
    requires s.watchers[w].runId in s.runs && k < |s.h.attempts| && s.h.attempts[k].id == s.watchers[w].attemptId
    ensures var t := Next(s, WatchWrites(w, persisted)).value;
            k < |t.h.attempts| && t.h.attempts[k].id == s.h.attempts[k].id
            && EndsAs(t.h.attempts[k], s.runs[s.watchers[w].runId])
  {
    hide HistoryValid, Coherent, Apply, Publish, Accepted;
    assert WatchOk(s.h.attempts, s.runs, s.used, s.watchers[w]);
    WriteIsInformed(s.h, s.log, s.runs, s.watchers[w].local.info, s.clock, persisted, k);
  }

  lemma OnlyWatchersStop(s: State, w: nat, step: Step)
    requires Next(s, step).Some? && !step.Restart? && s.live
    requires w in s.watchers && w !in Next(s, step).value.watchers && s.watchers[w].runId in s.runs
    ensures step == WatchDecides(w) || (step.WatchWrites? && step.w == w)
  {
    hide Publish, Accepted, NeedsRunUpdate, Decide;
  }

  lemma DecisionKeepsHistory(s: State, w: nat)
    requires Next(s, WatchDecides(w)).Some?
    ensures Next(s, WatchDecides(w)).value.h == s.h
  {
    QuietStep(s, WatchDecides(w));
    hide Next;
  }

  lemma InvWatchers(s: State)
    requires Inv(s)
    ensures Shape(s.h) && WatchersOk(s.h.attempts, s.runs, s.used, s.watchers)
  {
    hide HistoryValid, WatchersOk;
  }

  // A watcher that stops of its own accord leaves its attempt as its run ended.
  lemma WatcherStopsInformed(s: State, w: nat, step: Step, k: nat)
    requires Inv(s) && Next(s, step).Some? && !step.Restart?
    requires w in s.watchers && w !in Next(s, step).value.watchers
    requires s.live && s.watchers[w].runId in s.runs
    requires k < |s.h.attempts| && s.h.attempts[k].id == s.watchers[w].attemptId
    ensures var t := Next(s, step).value;
            k < |t.h.attempts| && t.h.attempts[k].id == s.h.attempts[k].id
            && EndsAs(t.h.attempts[k], s.runs[s.watchers[w].runId])
  {
    hide *;
    InvSound(s);
    InvWatchers(s);
    OnlyWatchersStop(s, w, step);
    if step.WatchDecides? {
      assert Next(s, step).value.h == s.h by {
        DecisionKeepsHistory(s, w);
      }
      WatcherDecides(s, w, k);
    } else {
      assert step == WatchWrites(w, step.persisted);
      WatcherWrites(s, w, step.persisted, k);
    }
  }

  // Once the gate is closed no step but a restart brings a new watcher.
  lemma NoWatcherPastTheGate(s: State, step: Step)
    requires Next(s, step).Some? && s.closed && !step.Restart?
    ensures Next(s, step).value.closed
    ensures forall w :: w in Next(s, step).value.watchers ==> w in s.watchers
  {
    hide Publish, Accepted, Decide, NeedsRunUpdate, Leftovers, Built, InfoConsistent, Reached;
  }

  lemma GateComesFirst(s: State, step: Step)
    requires (s.live || s.closed) && Next(s, step).Some?
    ensures var t := Next(s, step).value; t.live || t.closed
  {
    hide Publish, Accepted, Decide, Built, NeedsRunUpdate, Leftovers, Edited;
    EditedKeepsGate(s, step);
  }

  lemma EditedKeepsGate(s: State, step: Step)
    ensures forall taskId, m, persisted ::
              Edited(s, taskId, m, persisted).live == s.live && Edited(s, taskId, m, persisted).closed == s.closed
  {
    hide Publish, Accepted;
  }

  // Nobody's watcher is canceled before the gate is closed.
  lemma {:induction false} NoCancelBeforeTheGate(clock: Time, steps: seq<Step>)
    requires After(Start(clock), steps).Some?
    ensures var t := After(Start(clock), steps).value; !t.live ==> t.closed
  {
    hide Next;
    if steps != [] {
      var init, last := steps[..|steps| - 1], steps[|steps| - 1];
      NoCancelBeforeTheGate(clock, init);
      GateComesFirst(After(Start(clock), init).value, last);
    }
  }
}
