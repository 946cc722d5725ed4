// Admission read off the request's own texts: which check decides, what is answered, and
// what the admitted record says.
module AdmissionTable {
  import opened Wrappers
  import opened Text
  import opened TaskHistory
  import opened HistoryInvariants
  import opened HistoryDraft
  import opened Admission

  // The checks of both handlers; Order is when they are made.
  datatype Check =
    | KeyGiven | TextsLegible | WorkspaceSelected | HistoryLoaded | TaskKnown | TaskOpen | ParentKnown | ParentFits
    | ParentTextLegible | ScopeCovered | KeyUnused | FirstOfTask | RoomLeft | RunnerResolved
  {
    function Order(): nat {
      match this
      case KeyGiven => 0
      case TextsLegible => 1
      case WorkspaceSelected => 2
      case HistoryLoaded => 3
      case TaskKnown => 4
      case TaskOpen => 5
      case ParentKnown => 6
      case ParentFits => 7
      case ParentTextLegible => 8
      case ScopeCovered => 9
      case KeyUnused => 10
      case FirstOfTask => 11
      case RoomLeft => 12
      case RunnerResolved => 13
    }
  }

  predicate Uses(a: Attempt, req: Request) { a.taskId == req.taskId && a.key == Trim(req.key) }

  predicate Passes(check: Check, h: History, c: Coordination, session: Session, req: Request) {
    var ti, p := FirstTask(h.tasks, req.taskId), FirstAttempt(h.attempts, ById(req.taskId, req.parentId));
    match check
    case KeyGiven => !Blank(req.key)
    case TextsLegible => Legible(req.pipeline, req.intent)
    case WorkspaceSelected => session.selected
    case HistoryLoaded => session.loaded
    case TaskKnown => exists j :: 0 <= j < |h.tasks| && h.tasks[j].id == req.taskId
    case TaskOpen => ti < |h.tasks| && h.tasks[ti].lifecycle.Open?
    case ParentKnown =>
      req.action.Child? ==> exists i :: 0 <= i < |h.attempts| && h.attempts[i].taskId == req.taskId && h.attempts[i].id == req.parentId
    case ParentFits =>
      req.action.Child? && p < |h.attempts| ==>
        var status := h.attempts[p].status;
        if req.action.kind.Rerun? then status.Succeeded? else status.Failed? || status.Canceled? || status.Timeout?
    case ParentTextLegible => Legible(PipelineText(h, req), req.intent)
    case ScopeCovered =>
      ti < |h.tasks| && forall i :: 0 <= i < |h.tasks[ti].intent.scope| ==> Trim(h.tasks[ti].intent.scope[i].name) in session.manifest
    case KeyUnused => forall i :: 0 <= i < |h.attempts| ==> !Uses(h.attempts[i], req)
    case FirstOfTask => req.action.FirstStart? ==> forall i :: 0 <= i < |h.attempts| ==> h.attempts[i].taskId != req.taskId
    case RoomLeft => HasRoom(h, c, req.intent)
    case RunnerResolved => ti < |h.tasks| && h.tasks[ti].intent.runner in session.runners
  }

  // The error a failed check is answered with.
  predicate Answered(check: Check, h: History, c: Coordination, req: Request, why: Refusal) {
    match check
    case KeyGiven => why.KeyRequired?
    case TextsLegible => why.OptionsInvalid?
    case WorkspaceSelected => why.WorkspaceNotSelected?
    case HistoryLoaded => why.HistoryUnavailable?
    case TaskKnown => why.TaskMissing?
    case TaskOpen => why.TaskArchived?
    case ParentKnown => why.AttemptMissing?
    case ParentFits =>
      var p := FirstAttempt(h.attempts, ById(req.taskId, req.parentId));
      if req.action == Child(Rerun) then why.RerunParentNotSucceeded?
      else if p < |h.attempts| && h.attempts[p].status.Succeeded? then why.RetryParentNotRetryable?
      else why.RetryParentNotTerminal?
    case ParentTextLegible => why.OptionsInvalid?
    case ScopeCovered => why.ScopeInvalid?
    case KeyUnused => why.IdempotencyConflict?
    case FirstOfTask => why.AttemptActionRequired?
    case RoomLeft => if AsksStart(req.intent) && (c.active || !c.pending) then why.RunActive? else why.AttemptQueueFull?
    case RunnerResolved => why.AdmissionInvalid?
  }

  // The reason recorded with the attempt: the one given, or the operator's action.
  predicate Reasoned(req: Request, reason: string) {
    match req.action
    case FirstStart => reason == ""
    case Child(kind) =>
      && (!Blank(req.reason) ==> reason == Trim(req.reason))
      && (Blank(req.reason) ==> reason == if kind.Rerun? then "operator_rerun" else "operator_retry")
  }

  predicate Parented(req: Request, parent: Option<Id>) {
    match req.action
    case FirstStart => parent == None
    case Child(_) => parent == Some(req.parentId)
  }

  // f is the fingerprint of this request for its task at `revision`.
  predicate Prints(h: History, req: Request, revision: nat, f: Fingerprint) {
    && f.taskId == req.taskId && f.revision == revision
    && Names(PipelineText(h, req), f.pipeline)
    && f.intent == (if AsksQueue(req.intent) then "queue" else "start")
    && Parented(req, f.parent) && Reasoned(req, f.reason)
  }

  // ---------------------------------------------------------------- lemmas

  lemma KeySearch(h: History, req: Request)
    ensures FirstAttempt(h.attempts, ByKey(req.taskId, Trim(req.key))) == |h.attempts|
            <==> forall i :: 0 <= i < |h.attempts| ==> !Uses(h.attempts[i], req)
  {
    var q := ByKey(req.taskId, Trim(req.key));
    assert forall i :: 0 <= i < |h.attempts| ==> (q.Matches(h.attempts[i]) <==> Uses(h.attempts[i], req));
  }

  lemma ParentSearch(h: History, req: Request)
    ensures FirstAttempt(h.attempts, ById(req.taskId, req.parentId)) == |h.attempts|
            <==> forall i :: 0 <= i < |h.attempts| ==> !(h.attempts[i].taskId == req.taskId && h.attempts[i].id == req.parentId)
  {
    var q := ById(req.taskId, req.parentId);
    assert forall i :: 0 <= i < |h.attempts| ==>
        (q.Matches(h.attempts[i]) <==> h.attempts[i].taskId == req.taskId && h.attempts[i].id == req.parentId);
  }

  ghost predicate Reached(check: Check, h: History, c: Coordination, session: Session, req: Request) {
    forall m: Check :: m.Order() < check.Order() ==> Passes(m, h, c, session, req)
  }

  // What is answered when `check` is the first to fail.
  predicate Settled(check: Check, h: History, c: Coordination, req: Request, d: Decision) {
    var ti, e := FirstTask(h.tasks, req.taskId), FirstAttempt(h.attempts, ByKey(req.taskId, Trim(req.key)));
    if check.KeyUnused? && ti < |h.tasks| && e < |h.attempts| && Prints(h, req, h.tasks[ti].revision, h.attempts[e].fingerprint)
    then d == Replay(h.attempts[e])
    else d.Refuse? && Answered(check, h, c, req, d.why)
  }

  lemma EarlyFailure(check: Check, h: History, c: Coordination, session: Session, req: Request)
    requires !Passes(check, h, c, session, req) && check.Order() <= 5
    requires Reached(check, h, c, session, req)
    ensures Settled(check, h, c, req, Decide(h, c, session, req))
  {
    TextsAreRead(req.pipeline, req.intent);
    assert 0 < check.Order() ==> Passes(KeyGiven, h, c, session, req);
    assert 1 < check.Order() ==> Passes(TextsLegible, h, c, session, req);
    assert 2 < check.Order() ==> Passes(WorkspaceSelected, h, c, session, req);
    assert 3 < check.Order() ==> Passes(HistoryLoaded, h, c, session, req);
    assert 4 < check.Order() ==> Passes(TaskKnown, h, c, session, req);
    hide ParseOptions, Trim, Settle, Legible, Reached;
  }

  // A request for an open task, to a server ready to look it up.
  predicate Opened(h: History, session: Session, req: Request) {
    var ti := FirstTask(h.tasks, req.taskId);
    && !Blank(req.key) && Legible(req.pipeline, req.intent) && session.selected && session.loaded
    && ti < |h.tasks| && h.tasks[ti].lifecycle.Open?
  }

  lemma EarlyPassed(check: Check, h: History, c: Coordination, session: Session, req: Request)
    requires Reached(check, h, c, session, req) && 6 <= check.Order()
    ensures Opened(h, session, req)
  {
    assert Passes(KeyGiven, h, c, session, req) && Passes(TextsLegible, h, c, session, req);
    assert Passes(WorkspaceSelected, h, c, session, req) && Passes(HistoryLoaded, h, c, session, req);
    assert Passes(TaskKnown, h, c, session, req) && Passes(TaskOpen, h, c, session, req);
    hide Trim, Legible, Reached;
  }

  lemma ParentFailure(check: Check, h: History, c: Coordination, session: Session, req: Request)
    requires !Passes(check, h, c, session, req) && 6 <= check.Order() <= 8
    requires Reached(check, h, c, session, req)
    ensures Settled(check, h, c, req, Decide(h, c, session, req))
  {
    EarlyPassed(check, h, c, session, req);
    OptionsReadTexts(h, req);
    ParentSearch(h, req);
    assert 6 < check.Order() ==> Passes(ParentKnown, h, c, session, req);
    assert 7 < check.Order() ==> Passes(ParentFits, h, c, session, req);
    hide ParseOptions, Trim, Settle, Legible, Reached, Session.Covers;
  }

  // The plan a request with a fitting parent is admitted with, and the only fingerprint it answers to.
  function PlanOf(h: History, req: Request, t: Task): Plan
    requires EffectiveOptions(h, req).Some?
  {
    PlanFor(t, EffectiveOptions(h, req).value, EffectiveParent(req), EffectiveReason(req))
  }

  lemma FingerprintPrints(h: History, req: Request, revision: nat, f: Fingerprint)
    requires EffectiveOptions(h, req).Some?
    ensures f == Fingerprint(req.taskId, revision, EffectiveOptions(h, req).value.0, IntentName(EffectiveOptions(h, req).value.1),
                             EffectiveParent(req), EffectiveReason(req))
            <==> Prints(h, req, revision, f)
  {
    OptionsReadTexts(h, req);
    hide EffectiveOptions, Trim, PipelineText;
  }

  lemma ParentPassed(check: Check, h: History, c: Coordination, session: Session, req: Request)
    requires Reached(check, h, c, session, req) && 9 <= check.Order()
    ensures Opened(h, session, req) && ParentStillFits(h, req) && EffectiveOptions(h, req).Some?
  {
    EarlyPassed(check, h, c, session, req);
    OptionsReadTexts(h, req);
    ParentSearch(h, req);
    assert Passes(ParentKnown, h, c, session, req) && Passes(ParentFits, h, c, session, req);
    assert Passes(ParentTextLegible, h, c, session, req);
    hide Trim, Settle, Legible, Reached, EffectiveOptions, PipelineText;
  }

  // With only the scope, the key, the place and the room left to look at.
  lemma PlannedDecision(h: History, c: Coordination, session: Session, req: Request)
    requires Opened(h, session, req) && ParentStillFits(h, req) && EffectiveOptions(h, req).Some?
    ensures var t := h.tasks[FirstTask(h.tasks, req.taskId)];
            Decide(h, c, session, req)
            == if session.Covers(t) then Settle(h, c, session, t, Trim(req.key), PlanOf(h, req, t)) else Refuse(ScopeInvalid)
  {
    OptionsReadTexts(h, req);
    hide Trim, Settle, Legible, ParseOptions, PipelineText, Session.Covers;
  }

  lemma {:induction false} AttemptsRefuse(xs: seq<Attempt>, intent: RunIntent, from: nat)
    requires from <= |xs| && CapacityOfAttempts(xs, intent, from).Some?
    ensures CapacityOfAttempts(xs, intent, from).value == if intent.StartIntent? then RunActive else AttemptQueueFull
    decreases |xs| - from
  {
    if CapacityOfAttempts(xs, intent, from) == CapacityOfAttempts(xs, intent, from + 1) {
      AttemptsRefuse(xs, intent, from + 1);
    }
  }

  lemma LateFailure(check: Check, h: History, c: Coordination, session: Session, req: Request)
    requires !Passes(check, h, c, session, req) && 9 <= check.Order()
    requires Reached(check, h, c, session, req)
    ensures Settled(check, h, c, req, Decide(h, c, session, req))
  {
    ParentPassed(check, h, c, session, req);
    PlannedDecision(h, c, session, req);
    if check.ScopeCovered? {
      hide Trim, Settle, Decide, EffectiveOptions;
    } else {
      assert Passes(ScopeCovered, h, c, session, req);
      SettleFailure(check, h, c, session, req);
      hide Trim, Settle, Decide, EffectiveOptions, Settled, Reached;
    }
  }

  lemma SettleFailure(check: Check, h: History, c: Coordination, session: Session, req: Request)
    requires !Passes(check, h, c, session, req) && 10 <= check.Order()
    requires Reached(check, h, c, session, req)
    requires FirstTask(h.tasks, req.taskId) < |h.tasks| && EffectiveOptions(h, req).Some?
    ensures var t := h.tasks[FirstTask(h.tasks, req.taskId)];
            Settled(check, h, c, req, Settle(h, c, session, t, Trim(req.key), PlanOf(h, req, t)))
  {
    assert 10 < check.Order() ==> Passes(KeyUnused, h, c, session, req);
    assert 11 < check.Order() ==> Passes(FirstOfTask, h, c, session, req);
    assert 12 < check.Order() ==> Passes(RoomLeft, h, c, session, req);
    if check.KeyUnused? {
      UsedKeySettles(h, c, session, req);
    } else {
      var t := h.tasks[FirstTask(h.tasks, req.taskId)];
      PlanIntent(h, req, t);
      FreeKeySettles(check, h, c, session, req, t, PlanOf(h, req, t));
    }
    hide Trim, Reached, Prints, EffectiveOptions, PlanOf, Settle, HasRoom, Uses;
  }

  lemma UsedKeySettles(h: History, c: Coordination, session: Session, req: Request)
    requires FirstTask(h.tasks, req.taskId) < |h.tasks| && EffectiveOptions(h, req).Some?
    requires !Passes(KeyUnused, h, c, session, req)
    ensures var t, e := h.tasks[FirstTask(h.tasks, req.taskId)], FirstAttempt(h.attempts, ByKey(req.taskId, Trim(req.key)));
            && e < |h.attempts|
            && Settle(h, c, session, t, Trim(req.key), PlanOf(h, req, t))
               == if Prints(h, req, t.revision, h.attempts[e].fingerprint) then Replay(h.attempts[e]) else Refuse(IdempotencyConflict)
  {
    var t, e := h.tasks[FirstTask(h.tasks, req.taskId)], FirstAttempt(h.attempts, ByKey(req.taskId, Trim(req.key)));
    KeySearch(h, req);
    FingerprintPrints(h, req, t.revision, h.attempts[e].fingerprint);
    hide Trim, Prints, EffectiveOptions, Capacity, IntentName, EffectiveParent, EffectiveReason;
  }

  lemma RoomSettles(h: History, c: Coordination, req: Request, intent: RunIntent)
    requires intent.StartIntent? <==> AsksStart(req.intent)
    ensures Capacity(h, c, intent).None? <==> HasRoom(h, c, req.intent)
    ensures Capacity(h, c, intent).Some? ==> Answered(RoomLeft, h, c, req, Capacity(h, c, intent).value)
  {
    CapacityIsExact(h, c, intent);
    if CapacityOfAttempts(h.attempts, intent).Some? {
      AttemptsRefuse(h.attempts, intent, 0);
    }
    hide Trim, CapacityOfAttempts;
  }

  lemma PlanIntent(h: History, req: Request, t: Task)
    requires EffectiveOptions(h, req).Some?
    ensures PlanOf(h, req, t).intent.StartIntent? <==> AsksStart(req.intent)
    ensures PlanOf(h, req, t).parent.None? <==> req.action.FirstStart?
  {
    OptionsReadTexts(h, req);
    hide Trim, EffectiveOptions, PipelineText, Names, Legible, ParseOptions;
  }

  lemma FreeKeySettles(check: Check, h: History, c: Coordination, session: Session, req: Request, t: Task, plan: Plan)
    requires FirstTask(h.tasks, req.taskId) < |h.tasks| && t == h.tasks[FirstTask(h.tasks, req.taskId)] && t.id == req.taskId
    requires (plan.intent.StartIntent? <==> AsksStart(req.intent)) && (plan.parent.None? <==> req.action.FirstStart?)
    requires !Passes(check, h, c, session, req) && 11 <= check.Order()
    requires Passes(KeyUnused, h, c, session, req)
    requires 11 < check.Order() ==> Passes(FirstOfTask, h, c, session, req)
    requires 12 < check.Order() ==> Passes(RoomLeft, h, c, session, req)
    ensures var d := Settle(h, c, session, t, Trim(req.key), plan);
            d.Refuse? && Answered(check, h, c, req, d.why)
  {
    KeySearch(h, req);
    RoomSettles(h, c, req, plan.intent);
    hide Trim, Capacity, HasRoom, AsksStart, Uses;
  }

  // The first check that fails decides the answer: a key in use is replayed to the request
  // it was used for, and every other failure is a refusal of its own.
  lemma FirstFailureDecides(check: Check, h: History, c: Coordination, session: Session, req: Request)
    requires !Passes(check, h, c, session, req) && Reached(check, h, c, session, req)
    ensures Settled(check, h, c, req, Decide(h, c, session, req))
  {
    if check.Order() <= 5 {
      EarlyFailure(check, h, c, session, req);
    } else if check.Order() <= 8 {
      ParentFailure(check, h, c, session, req);
    } else {
      LateFailure(check, h, c, session, req);
    }
  }

  // What an admitted request was read as.
  lemma AdmittedPlan(h: History, c: Coordination, session: Session, req: Request)
    requires Decide(h, c, session, req).Admit?
    ensures var plan := Decide(h, c, session, req).plan;
            && FirstTask(h.tasks, req.taskId) < |h.tasks|
            && Names(PipelineText(h, req), plan.pipeline)
            && (plan.intent.QueueIntent? <==> AsksQueue(req.intent)) && (plan.intent.StartIntent? <==> AsksStart(req.intent))
            && (AsksQueue(req.intent) ==> plan.pipeline == "refresh" && Names(req.pipeline, "refresh"))
            && Parented(req, plan.parent) && Reasoned(req, plan.reason)
            && Prints(h, req, h.tasks[FirstTask(h.tasks, req.taskId)].revision, plan.fingerprint)
            && plan.fingerprint.pipeline == plan.pipeline && plan.fingerprint.reason == plan.reason
  {
    OptionsReadTexts(h, req);
    hide ParseOptions, Trim;
  }

  // The record an admitted request is kept as: queued now, with the task's revision and intent.
  lemma AdmittedRecord(h: History, c: Coordination, session: Session, req: Request, attemptId: Id, runId: Id, now: Time)
    requires Decide(h, c, session, req).Admit?
    ensures var t := h.tasks[FirstTask(h.tasks, req.taskId)];
            var a := Built(t, Trim(req.key), Decide(h, c, session, req).plan, attemptId, runId, now);
            && a.id == attemptId && a.runId == runId && Uses(a, req)
            && Names(PipelineText(h, req), a.pipeline) && Parented(req, a.parent) && Reasoned(req, a.retryReason)
            && Prints(h, req, t.revision, a.fingerprint) && a.revision == t.revision && a.intent == t.intent
            && a.status.Queued? && a.admittedAt == now && a.queuedAt == Some(now)
            && a.startedAt.None? && a.finishedAt.None? && a.terminal.None?
            && a.retained.EvidenceUnavailable? && a.outcome.Unavailable? && a.publication.Unpublished?
  {
    AdmittedPlan(h, c, session, req);
    hide Decide, Trim, Prints, Names, Reasoned, Parented, PipelineText, AsksStart, AsksQueue;
  }

  // When a stored attempt answers a request, by their texts alone.
  lemma AnswersExactly(h: History, req: Request, a: Attempt)
    ensures Answers(h, req, a) <==>
            && !Blank(req.key) && Uses(a, req) && Prints(h, req, a.revision, a.fingerprint)
            && Legible(req.pipeline, req.intent) && Legible(PipelineText(h, req), req.intent)
            && (req.action.Child? ==>
                  var p := FirstAttempt(h.attempts, ById(req.taskId, req.parentId));
                  && p < |h.attempts|
                  && var status := h.attempts[p].status;
                  if req.action.kind.Rerun? then status.Succeeded? else status.Failed? || status.Canceled? || status.Timeout?)
  {
    OptionsReadTexts(h, req);
    if EffectiveOptions(h, req).Some? {
      FingerprintPrints(h, req, a.revision, a.fingerprint);
    }
    hide Trim, Legible, PipelineText, Prints, EffectiveOptions, EffectiveParent, EffectiveReason, ParseOptions;
  }
}
