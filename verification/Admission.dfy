// Attempt admission: the decision a request meets under the admission lease, the
// handler that appends an attempt and rolls it back, and what both guarantee.
module Admission {
  import opened Wrappers
  import opened Text
  import opened TaskHistory
  import opened HistoryInvariants
  import opened HistoryDraft

  datatype RunIntent = StartIntent | QueueIntent

  // What the orchestrator's coordinator reports.
  datatype Coordination = Coordination(active: bool, pending: bool)

  // The server's session: whether a workspace, a runner and its service are selected, whether
  // the task history is loaded, the repositories the workspace manifest names, and the runner
  // presets the selected runtime can resolve.
  datatype Session = Session(selected: bool, loaded: bool, manifest: set<string>, runners: set<RunnerPreset>) {
    predicate Ready() { selected && loaded }

    // validateTaskRepositoryScope; a stored task's path patterns compiled when it was stored
    predicate Covers(t: Task) { forall i :: 0 <= i < |t.intent.scope| ==> Trim(t.intent.scope[i].name) in manifest }
  }

  datatype Request = Request(
    taskId: Id, key: string, pipeline: string, intent: string,
    parentId: Id, reason: string, action: Action)

  datatype Action = FirstStart | Child(kind: ChildKind)

  datatype Refusal =
    | KeyRequired | OptionsInvalid | WorkspaceNotSelected | HistoryUnavailable | TaskMissing | TaskArchived | AttemptMissing
    | RetryParentNotTerminal | RetryParentNotRetryable | RerunParentNotSucceeded
    | ScopeInvalid | IdempotencyConflict | AttemptActionRequired | RunActive | AttemptQueueFull
    | AdmissionInvalid

  datatype Plan = Plan(pipeline: string, intent: RunIntent, parent: Option<Id>, reason: string, fingerprint: Fingerprint)

  datatype Decision = Refuse(why: Refusal) | Replay(attempt: Attempt) | Admit(plan: Plan)

  function ParsePipeline(value: string): Option<string> {
    if value == "init" then Some("init")
    else if value == "refresh" || value == "update" then Some("refresh")
    else None
  }

  // parseAttemptAdmissionOptions
  function ParseOptions(rawPipeline: string, rawIntent: string): Option<(string, RunIntent)> {
    var pipeline := if Blank(rawPipeline) then Some("init") else ParsePipeline(Trim(rawPipeline));
    var intent :=
      if Blank(rawIntent) || Trim(rawIntent) == "start" then Some(StartIntent)
      else if Trim(rawIntent) == "queue" then Some(QueueIntent) else None;
    if pipeline.None? || intent.None? then None
    else if intent.value.QueueIntent? && pipeline.value != "refresh" then None
    else Some((pipeline.value, intent.value))
  }

  function IntentName(intent: RunIntent): string {
    match intent
    case StartIntent => "start"
    case QueueIntent => "queue"
  }

  function CapacityOfAttempts(xs: seq<Attempt>, intent: RunIntent, from: nat := 0): Option<Refusal>
    requires from <= |xs|
    decreases |xs| - from
  {
    if from == |xs| then None
    else if !xs[from].status.Terminal() && intent.StartIntent? then Some(RunActive)
    else if xs[from].status.Queued? then Some(AttemptQueueFull)
    else CapacityOfAttempts(xs, intent, from + 1)
  }

  // validateTaskCapacity
  function Capacity(h: History, c: Coordination, intent: RunIntent): Option<Refusal> {
    if c.active && intent.StartIntent? then Some(RunActive)
    else if c.pending then Some(AttemptQueueFull)
    else CapacityOfAttempts(h.attempts, intent)
  }

  function ChildRefusal(kind: ChildKind, parent: AttemptStatus): Refusal {
    if kind.Rerun? then RerunParentNotSucceeded
    else if !parent.Terminal() then RetryParentNotTerminal
    else RetryParentNotRetryable
  }

  function DefaultReason(kind: ChildKind, raw: string): string {
    if !Blank(raw) then Trim(raw)
    else if kind.Rerun? then "operator_rerun"
    else "operator_retry"
  }

  // The options a child runs with: its own, or its parent's pipeline when it names none.
  function ChildOptions(req: Request, parent: Attempt, own: (string, RunIntent)): Option<(string, RunIntent)> {
    if Blank(req.pipeline) && parent.pipeline != "" then ParseOptions(parent.pipeline, req.intent) else Some(own)
  }

  // The tail both handlers share: replay, then admit if there is room.
  function Settle(h: History, c: Coordination, session: Session, t: Task, key: string, plan: Plan): Decision {
    var e := FirstAttempt(h.attempts, ByKey(t.id, key));
    if e < |h.attempts| then
      if h.attempts[e].fingerprint != plan.fingerprint then Refuse(IdempotencyConflict) else Replay(h.attempts[e])
    else if plan.parent.None? && TaskHasAttempts(h.attempts, t.id) then Refuse(AttemptActionRequired)
    else
      var full := Capacity(h, c, plan.intent);
      if full.Some? then Refuse(full.value)
      else if t.intent.runner !in session.runners then Refuse(AdmissionInvalid)
      else Admit(plan)
  }

  function PlanFor(t: Task, options: (string, RunIntent), parent: Option<Id>, reason: string): Plan {
    Plan(options.0, options.1, parent, reason,
         Fingerprint(t.id, t.revision, options.0, IntentName(options.1), parent, reason))
  }

  // handleTaskAttemptAdmission and handleTaskAttemptChild up to the append
  function Decide(h: History, c: Coordination, session: Session, req: Request): Decision {
    var options := ParseOptions(req.pipeline, req.intent);
    if Blank(req.key) then Refuse(KeyRequired)
    else if options.None? then Refuse(OptionsInvalid)
    else if !session.selected then Refuse(WorkspaceNotSelected)
    else if !session.loaded then Refuse(HistoryUnavailable)
    else
      var ti := FirstTask(h.tasks, req.taskId);
      if ti == |h.tasks| then Refuse(TaskMissing)
      else if h.tasks[ti].lifecycle.Archived? then Refuse(TaskArchived)
      else
        match req.action
        case FirstStart =>
          if !session.Covers(h.tasks[ti]) then Refuse(ScopeInvalid)
          else Settle(h, c, session, h.tasks[ti], Trim(req.key), PlanFor(h.tasks[ti], options.value, None, ""))
        case Child(kind) =>
          var p := FirstAttempt(h.attempts, ById(req.taskId, req.parentId));
          if p == |h.attempts| then Refuse(AttemptMissing)
          else if !kind.Fits(h.attempts[p].status) then Refuse(ChildRefusal(kind, h.attempts[p].status))
          else
            var inherited := ChildOptions(req, h.attempts[p], options.value);
            if inherited.None? then Refuse(OptionsInvalid)
            else if !session.Covers(h.tasks[ti]) then Refuse(ScopeInvalid)
            else
              Settle(h, c, session, h.tasks[ti], Trim(req.key),
                     PlanFor(h.tasks[ti], inherited.value, Some(h.attempts[p].id), DefaultReason(kind, req.reason)))
  }

  function Kind(req: Request): Option<ChildKind> {
    match req.action
    case FirstStart => None
    case Child(kind) => Some(kind)
  }

  // buildAdmittedAttempt, without the resolved runtime profile
  function Built(t: Task, key: string, plan: Plan, attemptId: Id, runId: Id, now: Time): Attempt {
    Attempt(
      attemptId, t.id, runId, plan.parent, plan.reason, plan.pipeline, key, plan.fingerprint, t.revision, t.intent,
      Queued, now, Some(now), None, None, None, EvidenceUnavailable,
      Unavailable("attempt has not completed"), Unpublished("attempt has not been published"))
  }

  // ---------------------------------------------------------------- capacity

  lemma {:induction false} AttemptsFree(xs: seq<Attempt>, intent: RunIntent, from: nat)
    requires from <= |xs|
    ensures CapacityOfAttempts(xs, intent, from).None? <==>
            forall i :: from <= i < |xs| ==> !xs[i].status.Queued? && (intent.StartIntent? ==> xs[i].status.Terminal())
    decreases |xs| - from
  {
    if from < |xs| {
      AttemptsFree(xs, intent, from + 1);
    }
  }

  // Room is found exactly when nothing is queued anywhere and, for a start, nothing runs.
  lemma CapacityIsExact(h: History, c: Coordination, intent: RunIntent)
    ensures Capacity(h, c, intent).None? <==>
            && !c.pending
            && (forall i :: 0 <= i < |h.attempts| ==> !h.attempts[i].status.Queued?)
            && (intent.StartIntent? ==>
                  !c.active && forall i :: 0 <= i < |h.attempts| ==> h.attempts[i].status.Terminal())
  {
    AttemptsFree(h.attempts, intent, 0);
  }

  method CheckCapacity(xs: seq<Attempt>, c: Coordination, intent: RunIntent) returns (conflict: Option<Refusal>)
    ensures conflict == if c.active && intent.StartIntent? then Some(RunActive)
                        else if c.pending then Some(AttemptQueueFull) else CapacityOfAttempts(xs, intent)
  {
    if c.active && intent.StartIntent? {
      return Some(RunActive);
    }
    if c.pending {
      return Some(AttemptQueueFull);
    }
    for i := 0 to |xs|
      invariant CapacityOfAttempts(xs, intent) == CapacityOfAttempts(xs, intent, i)
    {
      if xs[i].status.Queued? || xs[i].status.Running? {
        if intent.StartIntent? {
          return Some(RunActive);
        }
        if xs[i].status.Queued? {
          return Some(AttemptQueueFull);
        }
      }
    }
    return None;
  }

  // ---------------------------------------------------------------- admitted requests

  // An accepted request names a task that can take the attempt it builds.
  lemma AdmittedIsAdmissible(h: History, c: Coordination, session: Session, req: Request, attemptId: Id, runId: Id, now: Time)
    requires Decide(h, c, session, req).Admit?
    ensures var ti := FirstTask(h.tasks, req.taskId);
            && ti < |h.tasks|
            && h.tasks[ti].lifecycle.Open?
            && Admissible(h, Built(h.tasks[ti], Trim(req.key), Decide(h, c, session, req).plan, attemptId, runId, now), Kind(req))
  {
    var ti := FirstTask(h.tasks, req.taskId);
    var d := Decide(h, c, session, req);
    CapacityIsExact(h, c, d.plan.intent);
    if req.action.Child? {
      var p := FirstAttempt(h.attempts, ById(req.taskId, req.parentId));
      assert req.action.kind.Fits(h.attempts[p].status);
    }
  }

  // What the texts of a request ask for, whatever surrounds them.
  predicate AsksStart(intent: string) { Blank(intent) || Trim(intent) == "start" }

  predicate AsksQueue(intent: string) { Trim(intent) == "queue" }

  // The pipeline a text names; a blank text names init.
  predicate Names(text: string, pipeline: string) {
    || (pipeline == "init" && (Blank(text) || Trim(text) == "init"))
    || (pipeline == "refresh" && (Trim(text) == "refresh" || Trim(text) == "update"))
  }

  // A start of either pipeline, or a queued refresh.
  predicate Legible(pipeline: string, intent: string) {
    || (AsksStart(intent) && (Names(pipeline, "init") || Names(pipeline, "refresh")))
    || (AsksQueue(intent) && Names(pipeline, "refresh"))
  }

  // The text that decides the pipeline: the request's, or its parent's when a child names none.
  function PipelineText(h: History, req: Request): string {
    if req.action.FirstStart? || !Blank(req.pipeline) then req.pipeline
    else
      var p := FirstAttempt(h.attempts, ById(req.taskId, req.parentId));
      if p == |h.attempts| then req.pipeline else h.attempts[p].pipeline
  }

  // A start is admitted only when nothing at all is queued or running.
  lemma StartNeedsIdleServer(h: History, c: Coordination, session: Session, req: Request)
    requires Decide(h, c, session, req).Admit? && AsksStart(req.intent)
    ensures !c.active && !c.pending
    ensures forall i :: 0 <= i < |h.attempts| ==> !h.attempts[i].status.Queued? && !h.attempts[i].status.Running?
  {
    CapacityIsExact(h, c, StartIntent);
  }

  // A key the task has seen never admits another attempt, whatever else is asked.
  lemma UsedKeyIsNeverAdmitted(h: History, c: Coordination, session: Session, req: Request)
    requires Contains(h.attempts, ByKey(req.taskId, Trim(req.key)))
    ensures !Decide(h, c, session, req).Admit?
  {
    var ti := FirstTask(h.tasks, req.taskId);
    if ti < |h.tasks| {
      assert h.tasks[ti].id == req.taskId;
    }
  }

  // The options a request is admitted with do not depend on the coordinator.
  function EffectiveOptions(h: History, req: Request): Option<(string, RunIntent)> {
    var options := ParseOptions(req.pipeline, req.intent);
    if options.None? || req.action.FirstStart? then options
    else
      var p := FirstAttempt(h.attempts, ById(req.taskId, req.parentId));
      if p == |h.attempts| then None else ChildOptions(req, h.attempts[p], options.value)
  }

  function EffectiveReason(req: Request): string {
    match req.action
    case FirstStart => ""
    case Child(kind) => DefaultReason(kind, req.reason)
  }

  function EffectiveParent(req: Request): Option<Id> {
    match req.action
    case FirstStart => None
    case Child(_) => Some(req.parentId)
  }

  predicate ParentStillFits(h: History, req: Request) {
    match req.action
    case FirstStart => true
    case Child(kind) =>
      var p := FirstAttempt(h.attempts, ById(req.taskId, req.parentId));
      p < |h.attempts| && kind.Fits(h.attempts[p].status)
  }

  // Attempt a answers `req`, admitted when the task stood at a's revision.
  predicate Answers(h: History, req: Request, a: Attempt) {
    var options := EffectiveOptions(h, req);
    && !Blank(req.key)
    && a.taskId == req.taskId && a.key == Trim(req.key)
    && options.Some?
    && a.fingerprint == Fingerprint(req.taskId, a.revision, options.value.0, IntentName(options.value.1),
                                    EffectiveParent(req), EffectiveReason(req))
    && ParentStillFits(h, req)
  }

  // Room for one more attempt with the intent this text asks for.
  predicate HasRoom(h: History, c: Coordination, intent: string) {
    && !c.pending
    && (forall i :: 0 <= i < |h.attempts| ==> !h.attempts[i].status.Queued?)
    && (AsksStart(intent) ==> !c.active && forall i :: 0 <= i < |h.attempts| ==> !h.attempts[i].status.Running?)
  }

  // Two texts are taken exactly when they are legible, and mean what they say.
  lemma TextsAreRead(pipeline: string, intent: string)
    ensures ParseOptions(pipeline, intent).Some? <==> Legible(pipeline, intent)
    ensures ParseOptions(pipeline, intent).Some? ==>
              var (p, i) := ParseOptions(pipeline, intent).value;
              Names(pipeline, p) && (i.QueueIntent? <==> AsksQueue(intent)) && (i.StartIntent? <==> AsksStart(intent))
  {
  }

  lemma OptionsReadTexts(h: History, req: Request)
    ensures var p := FirstAttempt(h.attempts, ById(req.taskId, req.parentId));
            ParentStillFits(h, req) ==>
              (EffectiveOptions(h, req).Some? <==> Legible(req.pipeline, req.intent) && Legible(PipelineText(h, req), req.intent))
    ensures ParseOptions(req.pipeline, req.intent).Some? <==> Legible(req.pipeline, req.intent)
    ensures EffectiveOptions(h, req).Some? ==>
              var (p, i) := EffectiveOptions(h, req).value;
              && Names(PipelineText(h, req), p)
              && (i.QueueIntent? <==> AsksQueue(req.intent)) && (i.StartIntent? <==> AsksStart(req.intent))
  {
    TextsAreRead(req.pipeline, req.intent);
    TextsAreRead(PipelineText(h, req), req.intent);
    assert Blank("");
    hide ParseOptions, Trim;
  }

  // When a request is admitted, condition by condition.
  lemma AdmittedExactly(h: History, c: Coordination, session: Session, req: Request)
    ensures Decide(h, c, session, req).Admit? <==>
            && !Blank(req.key) && session.Ready()
            && (exists j :: 0 <= j < |h.tasks| && h.tasks[j].id == req.taskId)
            && var t := h.tasks[FirstTask(h.tasks, req.taskId)];
            && t.lifecycle.Open? && session.Covers(t) && t.intent.runner in session.runners
            && Legible(req.pipeline, req.intent) && Legible(PipelineText(h, req), req.intent) && ParentStillFits(h, req)
            && (forall i :: 0 <= i < |h.attempts| && h.attempts[i].taskId == req.taskId ==>
                  h.attempts[i].key != Trim(req.key) && req.action.Child?)
            && HasRoom(h, c, req.intent)
  {
    OptionsReadTexts(h, req);
    hide ParseOptions, ParsePipeline, Trim, Legible, Names;
    var ti := FirstTask(h.tasks, req.taskId);
    if EffectiveOptions(h, req).Some? {
      CapacityIsExact(h, c, EffectiveOptions(h, req).value.1);
    }
    var e := FirstAttempt(h.attempts, ByKey(req.taskId, Trim(req.key)));
    assert e == |h.attempts| <==>
           forall i :: 0 <= i < |h.attempts| && h.attempts[i].taskId == req.taskId ==> h.attempts[i].key != Trim(req.key) by {
      assert forall i :: 0 <= i < |h.attempts| ==>
          (ByKey(req.taskId, Trim(req.key)).Matches(h.attempts[i])
           <==> h.attempts[i].taskId == req.taskId && h.attempts[i].key == Trim(req.key));
    }
    hide CapacityOfAttempts;
  }

  lemma AdmittedAnswers(h: History, c: Coordination, session: Session, req: Request, attemptId: Id, runId: Id, now: Time)
    requires Decide(h, c, session, req).Admit?
    ensures var t := h.tasks[FirstTask(h.tasks, req.taskId)];
            Answers(h, req, Built(t, Trim(req.key), Decide(h, c, session, req).plan, attemptId, runId, now))
  {
  }

  // Replaying an accepted request returns its attempt exactly while a workspace and a runner
  // are selected, the history is loaded, the manifest names the task's repositories, and the
  // task is open and unedited; otherwise it is refused, never admitted a second time.
  lemma ReplayIsExact(h: History, c: Coordination, session: Session, req: Request, k: nat)
    requires KeysUsedOnce(h.attempts) && k < |h.attempts| && Answers(h, req, h.attempts[k])
    requires FirstTask(h.tasks, req.taskId) < |h.tasks|
    ensures var t := h.tasks[FirstTask(h.tasks, req.taskId)];
            (Decide(h, c, session, req) == Replay(h.attempts[k])
             <==> session.Ready() && session.Covers(t) && t.lifecycle.Open? && t.revision == h.attempts[k].revision)
    ensures Decide(h, c, session, req) == Replay(h.attempts[k]) || Decide(h, c, session, req).Refuse?
  {
    var a := h.attempts[k];
    var t := h.tasks[FirstTask(h.tasks, req.taskId)];
    var e := FirstAttempt(h.attempts, ByKey(t.id, Trim(req.key)));
    assert ByKey(t.id, Trim(req.key)).Matches(a);
    assert e <= k;
    assert h.attempts[e].taskId == a.taskId && h.attempts[e].key == a.key;
  }

  // A manifest that lost one of the task's repositories refuses even the replay of an
  // open, unedited task, because the scope is looked at before the key.
  lemma LostScopeRefusesReplay(h: History, c: Coordination, session: Session, req: Request, k: nat, i: nat)
    requires k < |h.attempts| && Answers(h, req, h.attempts[k]) && session.Ready()
    requires FirstTask(h.tasks, req.taskId) < |h.tasks|
    requires var t := h.tasks[FirstTask(h.tasks, req.taskId)];
             t.lifecycle.Open? && i < |t.intent.scope| && Trim(t.intent.scope[i].name) !in session.manifest
    ensures Decide(h, c, session, req) == Refuse(ScopeInvalid)
  {
    assert !session.Covers(h.tasks[FirstTask(h.tasks, req.taskId)]);
    hide Session.Covers;
  }

  // So does a server restarted without a runner, before it looks at the history at all.
  lemma UnselectedRefusesReplay(h: History, c: Coordination, session: Session, req: Request, a: Attempt)
    requires Answers(h, req, a) && !session.selected
    ensures Decide(h, c, session, req) == Refuse(WorkspaceNotSelected)
  {
  }

  // ---------------------------------------------------------------- rollback

  lemma {:induction false} WithoutLast(ss: seq<Summary>, s: Summary)
    requires forall i :: 0 <= i < |ss| ==> ss[i].id != s.id
    ensures Without(ss + [s], s.id) == ss
  {
    assert (ss + [s])[..|ss|] == ss;
    WithoutAbsent(ss, s.id);
  }

  // h with attempt a appended under task ti, described there by s, active at `activity`.
  function Extended(h: History, a: Attempt, ti: nat, s: Summary, activity: Time): History
    requires ti < |h.tasks|
  {
    History(
      h.tasks[ti := h.tasks[ti].(attempts := h.tasks[ti].attempts + [s], lastActivityAt := activity)],
      h.attempts + [a])
  }

  // a's id is new to the history and to the task it goes to, and the task is the only one of its id.
  ghost predicate NewTo(h: History, a: Attempt, ti: nat) {
    && ti < |h.tasks| && h.tasks[ti].id == a.taskId
    && (forall i :: 0 <= i < |h.attempts| ==> h.attempts[i].id != a.id)
    && (forall k :: 0 <= k < |h.tasks[ti].attempts| ==> h.tasks[ti].attempts[k].id != a.id)
    && (forall i :: 0 <= i < |h.tasks| && i != ti ==> h.tasks[i].id != a.taskId)
  }

  // An update by a watcher or by restart reconciliation, of an attempt other than a.
  predicate Elsewhere(m: Mutation, a: Attempt) {
    match m
    case MirrorRun(info, _) => info.attemptId != a.id
    case MarkUnavailable(_, attemptId, _) => attemptId != a.id
    case _ => false
  }

  lemma {:induction false} SearchIgnoresLast(xs: seq<Attempt>, a: Attempt, q: AttemptQuery, from: nat)
    requires from <= |xs| && !q.Matches(a)
    ensures FirstAttempt(xs + [a], q, from) == if FirstAttempt(xs, q, from) < |xs| then FirstAttempt(xs, q, from) else |xs| + 1
    decreases |xs| - from
  {
    if from < |xs| {
      SearchIgnoresLast(xs, a, q, from + 1);
    }
  }

  lemma {:induction false} SummarySearchIgnoresLast(ss: seq<Summary>, s: Summary, id: Id, from: nat)
    requires from <= |ss| && s.id != id
    ensures FirstSummary(ss + [s], id, from) == if FirstSummary(ss, id, from) < |ss| then FirstSummary(ss, id, from) else |ss| + 1
    decreases |ss| - from
  {
    if from < |ss| {
      SummarySearchIgnoresLast(ss, s, id, from + 1);
    }
  }

  lemma MirrorCommutes(h: History, a: Attempt, ti: nat, s: Summary, activity: Time, info: RunInfo, now: Time)
    returns (later: Time)
    requires NewTo(h, a, ti) && s.id == a.id && info.attemptId != a.id
    ensures Mirrored(h, info, now).Ok? <==> Mirrored(Extended(h, a, ti, s, activity), info, now).Ok?
    ensures Mirrored(h, info, now).Ok? ==>
              var after := Mirrored(h, info, now).value;
              NewTo(after, a, ti)
              && Mirrored(Extended(h, a, ti, s, activity), info, now).value == Extended(after, a, ti, s, later)
  {
    var g := Extended(h, a, ti, s, activity);
    var q := ByRun(info.runId, info.attemptId);
    SearchIgnoresLast(h.attempts, a, q, 0);
    var k := FirstAttempt(h.attempts, q);
    later := activity;
    if k < |h.attempts| {
      var b := MirroredAttempt(h.attempts[k], info);
      var t, u := h.tasks[ti], g.tasks[ti];
      assert b.id == info.attemptId && b.taskId == h.attempts[k].taskId && b.key == h.attempts[k].key;
      hide MirroredAttempt, FirstAttempt;
      SummarySearchIgnoresLast(t.attempts, s, b.id, 0);
      assert MirroredSummaries(u.attempts, b, now) == MirroredSummaries(t.attempts, b, now) + [s];
      later := MirroredTask(u, b, now).lastActivityAt;
      var after := Mirrored(h, info, now).value;
      assert MirroredTasks(g.tasks, b, now) == Extended(after, a, ti, s, later).tasks;
      assert (h.attempts + [a])[k := b] == h.attempts[k := b] + [a];
    }
  }

  lemma {:induction false} TaskSearchAgrees(h: History, a: Attempt, ti: nat, s: Summary, activity: Time, taskId: Id, id: Id, from: nat)
    requires ti < |h.tasks| && id != s.id && from <= |h.tasks|
    ensures FirstTaskWithSummary(Extended(h, a, ti, s, activity).tasks, taskId, id, from)
            == FirstTaskWithSummary(h.tasks, taskId, id, from)
    decreases |h.tasks| - from
  {
    if from < |h.tasks| {
      TaskSearchAgrees(h, a, ti, s, activity, taskId, id, from + 1);
      SummarySearchIgnoresLast(h.tasks[ti].attempts, s, id, 0);
    }
  }

  function MarkedTasks(ts: seq<Task>, taskId: Id, id: Id, now: Time): seq<Task> {
    var x := FirstTaskWithSummary(ts, taskId, id);
    if x == |ts| then ts else ts[x := MarkedTask(ts[x], id, now)]
  }

  lemma MarkTasksCommutes(h: History, a: Attempt, ti: nat, s: Summary, activity: Time, taskId: Id, id: Id, now: Time)
    returns (later: Time)
    requires ti < |h.tasks| && s.id != id
    ensures |MarkedTasks(h.tasks, taskId, id, now)| == |h.tasks|
    ensures forall i :: 0 <= i < |h.tasks| ==> MarkedTasks(h.tasks, taskId, id, now)[i].id == h.tasks[i].id
    ensures forall i, k :: 0 <= i < |h.tasks| && 0 <= k < |MarkedTasks(h.tasks, taskId, id, now)[i].attempts| ==>
              k < |h.tasks[i].attempts| && MarkedTasks(h.tasks, taskId, id, now)[i].attempts[k].id == h.tasks[i].attempts[k].id
    ensures MarkedTasks(Extended(h, a, ti, s, activity).tasks, taskId, id, now)
            == Extended(h.(tasks := MarkedTasks(h.tasks, taskId, id, now)), a, ti, s, later).tasks
  {
    var g, x := Extended(h, a, ti, s, activity), FirstTaskWithSummary(h.tasks, taskId, id);
    TaskSearchAgrees(h, a, ti, s, activity, taskId, id, 0);
    later := if x == ti then now else activity;
    if x == ti {
      MarkUnderExtension(h.tasks[ti], s, activity, id, now);
    }
  }

  lemma MarkCommutes(h: History, a: Attempt, ti: nat, s: Summary, activity: Time, taskId: Id, id: Id, now: Time)
    returns (later: Time)
    requires NewTo(h, a, ti) && s.id == a.id && id != a.id
    ensures Marked(h, taskId, id, now).Ok? <==> Marked(Extended(h, a, ti, s, activity), taskId, id, now).Ok?
    ensures Marked(h, taskId, id, now).Ok? ==>
              var after := Marked(h, taskId, id, now).value;
              NewTo(after, a, ti)
              && Marked(Extended(h, a, ti, s, activity), taskId, id, now).value == Extended(after, a, ti, s, later)
  {
    SearchIgnoresLast(h.attempts, a, ById(taskId, id), 0);
    later := MarkTasksCommutes(h, a, ti, s, activity, taskId, id, now);
    var k := FirstAttempt(h.attempts, ById(taskId, id));
    if k < |h.attempts| {
      var b := MarkedAttempt(h.attempts[k], now);
      assert (h.attempts + [a])[k := b] == h.attempts[k := b] + [a];
      assert Marked(h, taskId, id, now).value == History(MarkedTasks(h.tasks, taskId, id, now), h.attempts[k := b]);
    }
  }

  lemma MarkUnderExtension(t: Task, s: Summary, activity: Time, id: Id, now: Time)
    requires s.id != id && FirstSummary(t.attempts, id) < |t.attempts|
    ensures MarkedTask(t.(attempts := t.attempts + [s], lastActivityAt := activity), id, now)
            == MarkedTask(t, id, now).(attempts := MarkedTask(t, id, now).attempts + [s])
  {
    SummarySearchIgnoresLast(t.attempts, s, id, 0);
    var si := FirstSummary(t.attempts, id);
    var moved := t.attempts[si].(status := Failed, updatedAt := now, finishedAt := Some(now));
    assert (t.attempts + [s])[si := moved] == t.attempts[si := moved] + [s];
  }

  // Apply a series of updates, each refused one leaving the history as it was.
  ghost function ApplyAll(h: History, ms: seq<Mutation>): History {
    if ms == [] then h
    else
      var g := ApplyAll(h, ms[..|ms| - 1]);
      var r := Apply(g, ms[|ms| - 1]);
      if r.Ok? then r.value else g
  }

  lemma {:induction false} UpdatesCommute(h: History, a: Attempt, ti: nat, s: Summary, activity: Time, ms: seq<Mutation>)
    returns (later: Time)
    requires NewTo(h, a, ti) && s.id == a.id
    requires forall i :: 0 <= i < |ms| ==> Elsewhere(ms[i], a)
    ensures NewTo(ApplyAll(h, ms), a, ti)
    ensures ApplyAll(Extended(h, a, ti, s, activity), ms) == Extended(ApplyAll(h, ms), a, ti, s, later)
  {
    later := activity;
    if ms != [] {
      var before := UpdatesCommute(h, a, ti, s, activity, ms[..|ms| - 1]);
      var h1 := ApplyAll(h, ms[..|ms| - 1]);
      var last := ms[|ms| - 1];
      assert Elsewhere(last, a);
      later := before;
      if last.MirrorRun? {
        var t := MirrorCommutes(h1, a, ti, s, before, last.info, last.now);
        if Apply(h1, last).Ok? {
          later := t;
        }
      } else {
        var t := MarkCommutes(h1, a, ti, s, before, last.taskId, last.attemptId, last.now);
        if Apply(h1, last).Ok? {
          later := t;
        }
      }
    }
  }

  lemma RemoveUndoes(h: History, a: Attempt, ti: nat, s: Summary, activity: Time, previous: Time)
    requires NewTo(h, a, ti) && s.id == a.id
    ensures Removed(Extended(h, a, ti, s, activity), a.taskId, a.id, previous)
            == h.(tasks := h.tasks[ti := h.tasks[ti].(lastActivityAt := previous)])
  {
    var g, n, q := Extended(h, a, ti, s, activity), |h.attempts|, ById(a.taskId, a.id);
    assert FirstAttempt(g.attempts, q) == n by {
      assert q.Matches(g.attempts[n]);
      assert forall i :: 0 <= i < n ==> g.attempts[i] == h.attempts[i];
    }
    assert g.attempts[..n] + g.attempts[n + 1..] == h.attempts;
    assert forall i :: 0 <= i < |g.tasks| ==> g.tasks[i].id == h.tasks[i].id;
    var x := FirstTask(g.tasks, a.taskId);
    assert g.tasks[ti].id == a.taskId;
    assert x == ti;
    WithoutLast(h.tasks[ti].attempts, s);
  }

  // A rolled-back admission leaves what the other updates alone would have left, save
  // that its task's activity time is put back to the moment of admission.
  lemma RollbackLeavesOnlyOthers(h: History, a: Attempt, ti: nat, ms: seq<Mutation>, previous: Time)
    requires NewTo(h, a, ti)
    requires forall i :: 0 <= i < |ms| ==> Elsewhere(ms[i], a)
    ensures Apply(h, AppendAttempt(a.taskId, a)).Ok?
    ensures var appended := Apply(h, AppendAttempt(a.taskId, a)).value;
            var others := ApplyAll(h, ms);
            && ti < |others.tasks|
            && Apply(ApplyAll(appended, ms), RemoveAttempt(a.taskId, a.id, previous))
               == Ok(others.(tasks := others.tasks[ti := others.tasks[ti].(lastActivityAt := previous)]))
  {
    assert FirstTask(h.tasks, a.taskId) == ti;
    assert !Contains(h.attempts, ById(a.taskId, a.id));
    var s := SummaryOf(a);
    assert Appended(h, a.taskId, a) == Ok(Extended(h, a, ti, s, a.admittedAt));
    var later := UpdatesCommute(h, a, ti, s, a.admittedAt, ms);
    RemoveUndoes(ApplyAll(h, ms), a, ti, s, later, previous);
  }

  // With nothing in between, appending and rolling back is the identity.
  lemma RollbackIsIdentity(h: History, a: Attempt, ti: nat)
    requires NewTo(h, a, ti)
    ensures Apply(h, AppendAttempt(a.taskId, a)).Ok?
    ensures Apply(Apply(h, AppendAttempt(a.taskId, a)).value, RemoveAttempt(a.taskId, a.id, h.tasks[ti].lastActivityAt)) == Ok(h)
  {
    RollbackLeavesOnlyOthers(h, a, ti, [], h.tasks[ti].lastActivityAt);
    assert h.tasks[ti := h.tasks[ti].(lastActivityAt := h.tasks[ti].lastActivityAt)] == h.tasks;
  }
}
