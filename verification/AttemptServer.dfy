// The attempt handlers as they run, against the registry: every uninterrupted pass through
// their code is a run of the step machine.
module AttemptServer {
  import opened Wrappers
  import opened Text
  import opened TaskHistory
  import opened HistoryDraft
  import opened HistoryInvariants
  import opened Admission
  import opened Protocol
  import opened ProtocolInvariant
  import opened ProtocolRuns
  import opened Rollback
  import opened ServerEffects

  datatype Reply =
    | Rejected(why: Refusal)
    | Idempotent(attempt: Attempt)
    | PersistFailed
    | StartFailed
    | Inconsistent      // the run did not start and the attempt could not be removed again
    | Admitted(attempt: Attempt)

  // How the world answers one admission: registry writes, the orchestrator's launch, and
  // whether the run is still known when it is read back.
  datatype World = World(appended: bool, run: Option<RunInfo>, removed: bool, forgotten: bool, mirrored: bool)

  // `steps` lead from s to t.
  ghost predicate Leads(s: State, steps: seq<Step>, t: State) {
    After(s, steps) == Some(t)
  }

  lemma Starts(s: State)
    ensures Leads(s, [], s)
  {
  }

  lemma Extends(s: State, steps: seq<Step>, t: State, step: Step) returns (u: State)
    requires Leads(s, steps, t) && Next(t, step).Some?
    ensures u == Next(t, step).value && Leads(s, steps + [step], u)
  {
    hide Next;
    assert (steps + [step])[..|steps|] == steps;
    u := Next(t, step).value;
  }

  lemma AppendStep(s: State, steps: seq<Step>, t: State, persisted: bool) returns (u: State)
    requires Leads(s, steps, t) && t.handler.Checked?
    ensures Leads(s, steps + [Append(persisted)], u)
    ensures var a := t.handler.attempt;
            var m := AppendAttempt(a.taskId, a);
            && u.h == Publish(t.h, m, persisted)
            && u.handler == (if Accepted(t.h, m, persisted) then Pending(a, t.handler.req, t.handler.previous) else Idle)
            && u == t.(h := u.h, log := u.log, handler := u.handler)
  {
    hide Accepted, Publish, Leads;
    u := Extends(s, steps, t, Append(persisted));
    PublishedOrNot(t.h, AppendAttempt(t.handler.attempt.taskId, t.handler.attempt), persisted);
  }

  lemma LaunchStep(s: State, steps: seq<Step>, t: State, info: RunInfo) returns (u: State)
    requires Leads(s, steps, t) && t.handler.Pending? && InfoConsistent(info)
    requires info.runId == t.handler.attempt.runId && info.attemptId == t.handler.attempt.id
    ensures Leads(s, steps + [Launch(info)], u)
    ensures u == t.(runs := t.runs[info.runId := info], handler := Launched(t.handler.attempt))
  {
    hide Leads;
    u := Extends(s, steps, t, Launch(info));
  }

  lemma LaunchFailsStep(s: State, steps: seq<Step>, t: State, persisted: bool) returns (u: State)
    requires Leads(s, steps, t) && t.handler.Pending?
    ensures Leads(s, steps + [LaunchFails(persisted)], u)
    ensures var a := t.handler.attempt;
            u == t.(h := Publish(t.h, RemoveAttempt(a.taskId, a.id, t.handler.previous), persisted), handler := Idle)
  {
    hide Leads, Publish;
    u := Extends(s, steps, t, LaunchFails(persisted));
  }

  lemma ForgetStep(s: State, steps: seq<Step>, t: State, runId: Id) returns (u: State)
    requires Leads(s, steps, t)
    ensures Leads(s, steps + [RunForgotten(runId)], u)
    ensures runId !in u.runs && u == t.(runs := u.runs)
  {
    hide Leads;
    u := Extends(s, steps, t, RunForgotten(runId));
  }

  lemma ReadBackStep(s: State, steps: seq<Step>, t: State) returns (u: State)
    requires Leads(s, steps, t) && t.handler.Launched?
    ensures Leads(s, steps + [ReadBack], u)
    ensures var a := t.handler.attempt;
            u == t.(handler := if a.runId in t.runs then Mirroring(a, t.runs[a.runId]) else Attaching(a))
  {
    hide Leads;
    u := Extends(s, steps, t, ReadBack);
  }

  // The run starts, may be forgotten at once, and is read back.
  lemma LaunchAndReadBack(s: State, steps: seq<Step>, t: State, info: RunInfo, forgotten: bool) returns (u: State, taken: seq<Step>)
    requires Leads(s, steps, t) && t.handler.Pending? && InfoConsistent(info)
    requires info.runId == t.handler.attempt.runId && info.attemptId == t.handler.attempt.id
    ensures Leads(s, taken, u) && Launch(info) in taken
    ensures var a := t.handler.attempt;
            u == t.(runs := u.runs, handler := if forgotten then Attaching(a) else Mirroring(a, info))
  {
    hide *;
    u := LaunchStep(s, steps, t, info);
    taken := steps + [Launch(info)];
    if forgotten {
      u := ForgetStep(s, taken, u, info.runId);
      taken := taken + [RunForgotten(info.runId)];
    }
    u := ReadBackStep(s, taken, u);
    taken := taken + [ReadBack];
  }

  lemma MirrorBackStep(s: State, steps: seq<Step>, t: State, persisted: bool) returns (u: State)
    requires Leads(s, steps, t) && t.handler.Mirroring?
    ensures Leads(s, steps + [MirrorBack(persisted)], u)
    ensures u == t.(h := Publish(t.h, MirrorRun(t.handler.info, t.clock), persisted), handler := Attaching(t.handler.attempt))
  {
    hide Leads, Publish;
    u := Extends(s, steps, t, MirrorBack(persisted));
  }

  lemma AttachStep(s: State, steps: seq<Step>, t: State, w: nat) returns (u: State)
    requires Leads(s, steps, t) && t.handler.Attaching? && w !in t.watchers
    ensures Leads(s, steps + [Attach(w)], u)
    ensures var a := t.handler.attempt;
            u == t.(handler := Idle,
                    watchers := if t.closed then t.watchers else t.watchers[w := Protocol.Watch.Watch(a.id, a.runId, Waiting)])
  {
    hide Leads;
    u := Extends(s, steps, t, Attach(w));
  }

  lemma WatchReadsStep(s: State, steps: seq<Step>, t: State, w: nat) returns (u: State)
    requires Leads(s, steps, t) && w in t.watchers && t.watchers[w].local.Waiting?
    ensures Leads(s, steps + [WatchReads(w)], u) && u == t.(watchers := u.watchers)
    ensures var runId := t.watchers[w].runId;
            if runId in t.runs then w in u.watchers && u.watchers[w] == t.watchers[w].(local := Holding(t.runs[runId]))
            else w !in u.watchers
  {
    hide Leads;
    u := Extends(s, steps, t, WatchReads(w));
  }

  lemma WatchDecidesStep(s: State, steps: seq<Step>, t: State, w: nat) returns (u: State)
    requires Leads(s, steps, t) && w in t.watchers && t.watchers[w].local.Holding? && t.live
    ensures Leads(s, steps + [WatchDecides(w)], u) && u == t.(watchers := u.watchers)
    ensures var info := t.watchers[w].local.info;
            if NeedsRunUpdate(t.h, info) then w in u.watchers && u.watchers[w] == t.watchers[w].(local := Writing(info))
            else if info.status.Terminal() then w !in u.watchers
            else w in u.watchers && u.watchers[w] == t.watchers[w].(local := Waiting)
  {
    hide Leads, NeedsRunUpdate;
    u := Extends(s, steps, t, WatchDecides(w));
  }

  lemma WatchWritesStep(s: State, steps: seq<Step>, t: State, w: nat, persisted: bool) returns (u: State)
    requires Leads(s, steps, t) && w in t.watchers && t.watchers[w].local.Writing? && t.live
    ensures Leads(s, steps + [WatchWrites(w, persisted)], u)
    ensures var info := t.watchers[w].local.info;
            var m := MirrorRun(info, t.clock);
            && u == t.(h := Publish(t.h, m, persisted), watchers := u.watchers)
            && if Accepted(t.h, m, persisted) && info.status.Terminal() then w !in u.watchers
               else w in u.watchers && u.watchers[w] == t.watchers[w].(local := Waiting)
  {
    hide Leads, Accepted, Publish;
    u := Extends(s, steps, t, WatchWrites(w, persisted));
  }

  lemma RestoreStep(s: State, steps: seq<Step>, t: State, persisted: bool) returns (u: State)
    requires Leads(s, steps, t) && t.todo != [] && t.recovery.Resting?
    ensures Leads(s, steps + [Restore(persisted)], u)
    ensures var r := t.todo[0];
            u == if r.runId in t.runs then t.(todo := t.todo[1..], recovery := Found(r, t.runs[r.runId]))
                 else t.(h := Publish(t.h, MarkUnavailable(r.taskId, r.attemptId, t.clock), persisted), todo := t.todo[1..])
  {
    hide Leads, Publish;
    u := Extends(s, steps, t, Restore(persisted));
  }

  lemma RestoreMirrorsStep(s: State, steps: seq<Step>, t: State, persisted: bool, w: nat) returns (u: State)
    requires Leads(s, steps, t) && t.recovery.Found? && w !in t.watchers
    ensures Leads(s, steps + [RestoreMirrors(persisted, w)], u)
    ensures var info := t.recovery.info;
            && u == t.(h := if NeedsRunUpdate(t.h, info) then Publish(t.h, MirrorRun(info, t.clock), persisted) else t.h,
                       recovery := Resting,
                       watchers := if info.status.Terminal() || t.closed then t.watchers
                                   else t.watchers[w := Protocol.Watch.Watch(t.recovery.item.attemptId, t.recovery.item.runId, Waiting)])
  {
    hide Leads, Publish, NeedsRunUpdate;
    u := Extends(s, steps, t, RestoreMirrors(persisted, w));
  }

  // The run the launch reported is the admitted one, fresh from the orchestrator.
  predicate LaunchFits(world: World, attemptId: Id, runId: Id) {
    world.run.Some? ==>
      world.run.value.runId == runId && world.run.value.attemptId == attemptId && InfoConsistent(world.run.value)
  }

  predicate FreshIds(s: State, attemptId: Id, runId: Id) {
    attemptId != runId && attemptId !in s.used && runId !in s.used
  }

  lemma ChecksOut(s: State, c: Coordination, session: Session, req: Request, attemptId: Id, runId: Id)
    requires Serving(s) && FreshIds(s, attemptId, runId) && Decide(s.h, c, session, req).Admit?
    ensures var ti := FirstTask(s.h.tasks, req.taskId);
            && ti < |s.h.tasks| && s.h.tasks[ti].id == req.taskId
            && var t := s.h.tasks[ti];
               Next(s, Check(c, session, req, attemptId, runId))
               == Some(s.(handler := Checked(Built(t, Trim(req.key), Decide(s.h, c, session, req).plan, attemptId, runId, s.clock),
                                             req, t.lastActivityAt),
                          used := s.used + {attemptId, runId}))
  {
    AdmittedIsAdmissible(s.h, c, session, req, attemptId, runId, s.clock);
    hide Decide, Built, Admissible;
  }

  lemma RemovalIsSure(s: State, steps: seq<Step>, t: State)
    requires Leads(s, steps, t) && t.handler.Pending?
    ensures var a := t.handler.attempt;
            Inv(s) && LeaseOk(s) ==> Accepted(t.h, RemoveAttempt(a.taskId, a.id, t.handler.previous), true)
  {
    LeadsTo(s, steps, t);
    hide *;
    if Inv(s) && LeaseOk(s) {
      RunKeepsLease(s, steps);
      PendingRemovalIsAccepted(t);
    }
  }

  // Appending, launching or rolling back, mirroring once and attaching the watcher.
  method Run(
      registry: Registry, attempt: Attempt, previous: Time, world: World, w: nat, now: Time,
      ghost s: State, ghost checked: State, ghost before: seq<Step>, ghost req: Request)
    returns (reply: Reply, ghost steps: seq<Step>)
    requires registry.Valid() && registry.snapshot == checked.h && Leads(s, before, checked)
    requires checked.handler == Checked(attempt, req, previous) && checked.clock == now
    requires checked.todo == [] && checked.recovery.Resting? && w !in checked.watchers
    requires LaunchFits(world, attempt.id, attempt.runId)
    modifies registry
    ensures registry.Valid()
    ensures After(s, steps).Some? && After(s, steps).value.h == registry.snapshot && Serving(After(s, steps).value)
    ensures reply.PersistFailed? || reply.StartFailed? || reply.Inconsistent? || reply.Admitted?
    ensures reply.PersistFailed? ==> registry.snapshot == old(registry.snapshot)
    ensures reply.Admitted? ==> world.run.Some? && Launch(world.run.value) in steps
    ensures reply.Admitted? ==> Landed(old(registry.snapshot), registry.snapshot, attempt, world.run.value)
    ensures reply.Admitted? && !checked.closed ==>
              var watchers := After(s, steps).value.watchers;
              w in watchers && watchers[w] == Protocol.Watch.Watch(attempt.id, attempt.runId, Waiting)
    ensures reply.StartFailed? || reply.Inconsistent? ==>
              var appended := Apply(old(registry.snapshot), AppendAttempt(attempt.taskId, attempt));
              && appended.Ok?
              && if reply.Inconsistent? then registry.snapshot == appended.value
                 else Apply(appended.value, RemoveAttempt(attempt.taskId, attempt.id, previous)) == Ok(registry.snapshot)
    ensures reply.Inconsistent? && Inv(s) && LeaseOk(s) ==> !world.removed
  {
    hide HistoryValid, Accepted, Publish, Leads, Next, After, Apply, Inv, LeaseOk, Landed;
    ghost var t := checked;
    steps := before;
    var refused := registry.Update(AppendAttempt(attempt.taskId, attempt), world.appended);
    PublishedOrNot(t.h, AppendAttempt(attempt.taskId, attempt), world.appended);
    t := AppendStep(s, steps, t, world.appended);
    steps := steps + [Append(world.appended)];
    if refused.Some? {
      LeadsTo(s, steps, t);
      return PersistFailed, steps;
    }
    ghost var appended := registry.snapshot;
    AcceptedIs(old(registry.snapshot), AppendAttempt(attempt.taskId, attempt), world.appended);
    if world.run.None? {
      AcceptedIs(appended, RemoveAttempt(attempt.taskId, attempt.id, previous), world.removed);
      PublishedOrNot(appended, RemoveAttempt(attempt.taskId, attempt.id, previous), world.removed);
      RemovalIsSure(s, steps, t);
      var cleanup := registry.Update(RemoveAttempt(attempt.taskId, attempt.id, previous), world.removed);
      t := LaunchFailsStep(s, steps, t, world.removed);
      steps := steps + [LaunchFails(world.removed)];
      LeadsTo(s, steps, t);
      return if cleanup.Some? then Inconsistent else StartFailed, steps;
    }
    var info := world.run.value;
    AppendedLands(old(registry.snapshot), attempt, info);
    t, steps := LaunchAndReadBack(s, steps, t, info, world.forgotten);
    if !world.forgotten {
      AppendedLast(old(registry.snapshot), attempt);
      MirroredLands(old(registry.snapshot), appended, attempt, info, now, world.mirrored);
      var ignored := registry.Update(MirrorRun(info, now), world.mirrored);
      t := MirrorBackStep(s, steps, t, world.mirrored);
      steps := steps + [MirrorBack(world.mirrored)];
    }
    t := AttachStep(s, steps, t, w);
    steps := steps + [Attach(w)];
    LeadsTo(s, steps, t);
    return Admitted(attempt), steps;
  }

  lemma AcceptedIs(h: History, m: Mutation, persisted: bool)
    ensures Accepted(h, m, persisted) ==> Apply(h, m) == Ok(Publish(h, m, persisted)) && HistoryValid(Publish(h, m, persisted))
  {
    hide Apply, HistoryValid;
  }

  lemma AppendedLast(h: History, a: Attempt)
    requires Apply(h, AppendAttempt(a.taskId, a)).Ok?
    ensures Apply(h, AppendAttempt(a.taskId, a)).value.attempts == h.attempts + [a]
  {
  }

  lemma LeadsTo(s: State, steps: seq<Step>, t: State)
    requires Leads(s, steps, t)
    ensures After(s, steps) == Some(t)
  {
  }

  // handleTaskAttemptAdmission and handleTaskAttemptChild, holding the admission lease:
  // an uninterrupted pass is a run of the step machine.
  method Admit(
      registry: Registry, c: Coordination, session: Session, req: Request, attemptId: Id, runId: Id, world: World,
      w: nat, now: Time, ghost s: State)
    returns (reply: Reply, ghost steps: seq<Step>)
    requires registry.Valid() && registry.snapshot == s.h && Serving(s) && now == s.clock
    requires FreshIds(s, attemptId, runId) && LaunchFits(world, attemptId, runId) && w !in s.watchers
    modifies registry
    ensures registry.Valid()
    ensures After(s, steps).Some? && After(s, steps).value.h == registry.snapshot && Serving(After(s, steps).value)
    ensures reply.Rejected? || reply.Idempotent? || reply.PersistFailed? ==> registry.snapshot == old(registry.snapshot)
    ensures reply.Idempotent? <==> Decide(old(registry.snapshot), c, session, req).Replay?
    ensures reply.Rejected? <==> Decide(old(registry.snapshot), c, session, req).Refuse?
    ensures reply.StartFailed? && Inv(s) ==> registry.snapshot == old(registry.snapshot)
    ensures reply.Admitted? ==>
              && Decide(s.h, c, session, req).Admit? && FirstTask(s.h.tasks, req.taskId) < |s.h.tasks| && world.run.Some?
              && Landed(s.h, registry.snapshot,
                        Built(s.h.tasks[FirstTask(s.h.tasks, req.taskId)], Trim(req.key), Decide(s.h, c, session, req).plan,
                              attemptId, runId, now),
                        world.run.value)
    ensures reply.Inconsistent? && Inv(s) && LeaseOk(s) ==> !world.removed
  {
    hide HistoryValid, Decide, Built, Trim, Inv, LeaseOk, Landed, Apply;
    steps := [];
    var decision := Decide(registry.snapshot, c, session, req);
    if decision.Refuse? {
      return Rejected(decision.why), steps;
    }
    if decision.Replay? {
      return Idempotent(decision.attempt), steps;
    }
    ChecksOut(s, c, session, req, attemptId, runId);
    var task := registry.snapshot.tasks[FirstTask(registry.snapshot.tasks, req.taskId)];
    var attempt := Built(task, Trim(req.key), decision.plan, attemptId, runId, now);
    BuiltIds(task, Trim(req.key), decision.plan, attemptId, runId, now);
    ghost var check := Check(c, session, req, attemptId, runId);
    Starts(s);
    hide Next, Leads;
    ghost var checked := Extends(s, [], s, check);
    reply, steps := Run(registry, attempt, task.lastActivityAt, world, w, now, s, checked, [] + [check], req);
    if Inv(s) {
      FreshIsNew(s, FirstTask(s.h.tasks, req.taskId), attempt);
      RollbackIsIdentity(s.h, attempt, FirstTask(s.h.tasks, req.taskId));
    }
  }

  lemma BuiltIds(t: Task, key: string, plan: Plan, attemptId: Id, runId: Id, now: Time)
    ensures var a := Built(t, key, plan, attemptId, runId, now);
            a.id == attemptId && a.runId == runId && a.taskId == t.id
  {
  }

  // ---------------------------------------------------------------- the watcher

  // What one tick of a watcher meets: the run it reads, and whether its write lands.
  datatype Beat = Beat(known: bool, written: bool)

  // The watcher waits for its next tick, its context live and its run known.
  predicate Ticking(t: State, w: nat, info: RunInfo, now: Time) {
    && t.clock == now && t.live
    && w in t.watchers && t.watchers[w].local.Waiting? && t.watchers[w].runId == info.runId
    && info.runId in t.runs && t.runs[info.runId] == info
  }

  method Tick(registry: Registry, beat: Beat, info: RunInfo, w: nat, now: Time, ghost s: State, ghost t: State, ghost before: seq<Step>)
    returns (ended: bool, ghost steps: seq<Step>)
    requires registry.Valid() && registry.snapshot == t.h && Leads(s, before, t) && Ticking(t, w, info, now)
    modifies registry
    ensures registry.Valid()
    ensures After(s, steps).Some? && After(s, steps).value.h == registry.snapshot
    ensures var m, before := MirrorRun(info, now), old(registry.snapshot);
            && registry.snapshot == (if beat.known && NeedsRunUpdate(before, info) then Publish(before, m, beat.written) else before)
            && (ended <==> !beat.known
                           || (info.status.Terminal() && (NeedsRunUpdate(before, info) ==> Accepted(before, m, beat.written))))
    ensures ended ==> w !in After(s, steps).value.watchers
    ensures !ended ==> beat.known && Ticking(After(s, steps).value, w, info, now)
  {
    hide HistoryValid, Accepted, Publish, NeedsRunUpdate, Leads, Next;
    ghost var m := t;
    steps := before;
    if !beat.known {
      m := ForgetStep(s, steps, m, info.runId);
      steps := steps + [RunForgotten(info.runId)];
      m := WatchReadsStep(s, steps, m, w);
      steps := steps + [WatchReads(w)];
      LeadsTo(s, steps, m);
      return true, steps;
    }
    m := WatchReadsStep(s, steps, m, w);
    steps := steps + [WatchReads(w)];
    m := WatchDecidesStep(s, steps, m, w);
    steps := steps + [WatchDecides(w)];
    var needed := registry.NeedsUpdate(info);
    if !needed {
      LeadsTo(s, steps, m);
      return info.status.Terminal(), steps;
    }
    var failed := registry.Update(MirrorRun(info, now), beat.written);
    m := WatchWritesStep(s, steps, m, w, beat.written);
    steps := steps + [WatchWrites(w, beat.written)];
    LeadsTo(s, steps, m);
    return failed.None? && info.status.Terminal(), steps;
  }

  // The watcher's loop while its run stays as it is: it ends on an unknown run, or once the
  // run's end is stored, and tries again after a failed write.
  method Watch(registry: Registry, beats: seq<Beat>, info: RunInfo, w: nat, now: Time, ghost s: State)
    returns (ended: bool, ghost steps: seq<Step>)
    requires registry.Valid() && registry.snapshot == s.h && Ticking(s, w, info, now)
    modifies registry
    ensures registry.Valid()
    ensures After(s, steps).Some? && After(s, steps).value.h == registry.snapshot
    ensures ended <==> w !in After(s, steps).value.watchers
    ensures (exists i :: 0 <= i < |beats| && !beats[i].known) ==> ended
  {
    hide HistoryValid, Next;
    steps, ended := [], false;
    Starts(s);
    for i := 0 to |beats|
      invariant registry.Valid() && !ended
      invariant After(s, steps).Some? && After(s, steps).value.h == registry.snapshot
      invariant Ticking(After(s, steps).value, w, info, now)
      invariant forall k :: 0 <= k < i ==> beats[k].known
    {
      ended, steps := Tick(registry, beats[i], info, w, now, s, After(s, steps).value, steps);
      if ended {
        return;
      }
    }
  }

  // ---------------------------------------------------------------- restart reconciliation

  // Every attempt before i that is live on a known live run is watched again.
  predicate Rewatched(xs: seq<Attempt>, runs: map<Id, RunInfo>, watchers: map<nat, Watch>, base: nat, i: nat) {
    forall k: nat :: k < i && k < |xs| && Watchable(xs[k], runs) ==>
      base + k in watchers && watchers[base + k] == Protocol.Watch.Watch(xs[k].id, xs[k].runId, Waiting)
  }

  lemma NoneWatched(xs: seq<Attempt>, runs: map<Id, RunInfo>, watchers: map<nat, Watch>, base: nat)
    ensures Rewatched(xs, runs, watchers, base, 0)
  {
  }

  predicate Watchable(a: Attempt, runs: map<Id, RunInfo>) {
    !a.status.Terminal() && a.runId in runs && !runs[a.runId].status.Terminal()
  }

  lemma RewatchOne(
      xs: seq<Attempt>, runs: map<Id, RunInfo>, before: map<nat, Watch>, after: map<nat, Watch>, base: nat, i: nat)
    requires i < |xs| && Rewatched(xs, runs, before, base, i)
    requires after == if Watchable(xs[i], runs) then before[base + i := Protocol.Watch.Watch(xs[i].id, xs[i].runId, Waiting)] else before
    ensures Rewatched(xs, runs, after, base, i + 1)
  {
  }

  // reconcileTaskAttemptsAfterRestart: the attempts the last process left queued or running
  // are mirrored from the runs still known, or marked unavailable.
  method Reconcile(
      registry: Registry, runs: map<Id, RunInfo>, persisted: nat -> bool, now: Time, base: nat, ghost s: State)
    returns (ghost steps: seq<Step>)
    requires registry.Valid() && registry.snapshot == s.h && now == s.clock && runs == s.runs
    requires s.todo == Leftovers(s.h.attempts) && s.recovery.Resting? && s.handler.Idle?
    requires forall w :: w in s.watchers ==> w < base
    modifies registry
    ensures registry.Valid()
    ensures After(s, steps).Some? && After(s, steps).value.h == registry.snapshot && Serving(After(s, steps).value)
    ensures Inv(s) ==> Restoring(s.h, registry.snapshot, runs, persisted, now, |s.h.attempts|)
    ensures !s.closed ==> Rewatched(s.h.attempts, runs, After(s, steps).value.watchers, base, |s.h.attempts|)
  {
    hide HistoryValid, Accepted, Publish, NeedsRunUpdate, Leads, Next, Inv, Restoring, InfoConsistent, Behind, Rewatched;
    steps := [];
    Starts(s);
    ghost var t := s;
    NothingRestored(s.h, runs, persisted, now);
    NoneWatched(s.h.attempts, runs, s.watchers, base);
    var attempts := registry.snapshot.attempts;
    for i := 0 to |attempts|
      invariant registry.Valid()
      invariant Leads(s, steps, t) && t.h == registry.snapshot && t.clock == now && t.runs == runs
      invariant t.todo == Leftovers(attempts, i) && t.recovery.Resting? && t.handler.Idle?
      invariant forall w :: w in t.watchers ==> w < base + i
      invariant Inv(s) ==> Restoring(s.h, registry.snapshot, runs, persisted, now, i)
      invariant t.closed == s.closed && (!s.closed ==> Rewatched(attempts, runs, t.watchers, base, i))
    {
      var attempt := attempts[i];
      ghost var before, watchers := registry.snapshot, t.watchers;
      if attempt.status.Terminal() {
        if !s.closed {
          RewatchOne(attempts, runs, watchers, watchers, base, i);
        }
        if Inv(s) {
          RestoreEnded(s.h, before, runs, persisted, now, i);
        }
        continue;
      }
      t := RestoreStep(s, steps, t, persisted(i));
      steps := steps + [Restore(persisted(i))];
      if attempt.runId !in runs {
        if Inv(s) {
          RestoreLost(s.h, before, runs, persisted, now, i);
        }
        if !s.closed {
          RewatchOne(attempts, runs, watchers, watchers, base, i);
        }
        var ignored := registry.Update(MarkUnavailable(attempt.taskId, attempt.id, now), persisted(i));
        continue;
      }
      var info := runs[attempt.runId];
      if Inv(s) {
        KnownRunIsAhead(s, i);
        RestoreKnown(s.h, before, runs, persisted, now, i);
      }
      var needed := registry.NeedsUpdate(info);
      if needed {
        var ignored := registry.Update(MirrorRun(info, now), persisted(i));
      }
      t := RestoreMirrorsStep(s, steps, t, persisted(i), base + i);
      steps := steps + [RestoreMirrors(persisted(i), base + i)];
      if !s.closed {
        RewatchOne(attempts, runs, watchers, t.watchers, base, i);
      }
    }
    LeadsTo(s, steps, t);
  }
}
