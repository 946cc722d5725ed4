// The mutators as the server runs them: loops that edit a candidate history in
// place, and the registry that publishes a candidate or drops it.
module HistoryDraft {
  import opened Wrappers
  import opened Text
  import opened TaskHistory

  // The candidate history handed to a mutator closure.
  class Draft {
    var tasks: seq<Task>
    var attempts: seq<Attempt>

    ghost function View(): History
      reads this
    {
      History(tasks, attempts)
    }

    // The mutator left the candidate at `spec`'s value, or refused and left it alone.
    ghost predicate Effect(before: History, spec: Result<History, MutationError>, err: Option<MutationError>)
      reads this
    {
      match spec
      case Ok(h) => err.None? && View() == h
      case Err(e) => err == Some(e) && View() == before
    }

    constructor (h: History)
      ensures View() == h
    {
      tasks, attempts := h.tasks, h.attempts;
    }

    method IndexTask(id: Id) returns (index: int)
      ensures index == if FirstTask(tasks, id) < |tasks| then FirstTask(tasks, id) else -1
    {
      for i := 0 to |tasks|
        invariant FirstTask(tasks, id) == FirstTask(tasks, id, i)
      {
        if tasks[i].id == id {
          return i;
        }
      }
      return -1;
    }

    method IndexAttempt(q: AttemptQuery) returns (index: int)
      ensures index == if FirstAttempt(attempts, q) < |attempts| then FirstAttempt(attempts, q) else -1
    {
      for i := 0 to |attempts|
        invariant FirstAttempt(attempts, q) == FirstAttempt(attempts, q, i)
      {
        if q.Matches(attempts[i]) {
          return i;
        }
      }
      return -1;
    }

    method AppendAttempt(taskId: Id, attempt: Attempt) returns (err: Option<MutationError>)
      modifies this
      ensures Effect(old(View()), Appended(old(View()), taskId, attempt), err)
    {
      var existing := IndexAttempt(ById(taskId, attempt.id));
      if existing >= 0 {
        return Some(AttemptExists);
      }
      var index := IndexTask(taskId);
      if index < 0 {
        return Some(TaskNotFound);
      }
      attempts := attempts + [attempt];
      tasks := tasks[index := tasks[index].(attempts := tasks[index].attempts + [SummaryOf(attempt)])];
      tasks := tasks[index := tasks[index].(lastActivityAt := attempt.admittedAt)];
      return None;
    }

    method RemoveAttempt(taskId: Id, attemptId: Id, previousActivity: Time)
      modifies this
      ensures View() == Removed(old(View()), taskId, attemptId, previousActivity)
    {
      var index := IndexAttempt(ById(taskId, attemptId));
      if index < 0 {
        return;
      }
      attempts := attempts[..index] + attempts[index + 1..];
      var taskIndex := IndexTask(taskId);
      if taskIndex >= 0 {
        var summaries := tasks[taskIndex].attempts;
        var filtered: seq<Summary> := [];
        for i := 0 to |summaries|
          invariant filtered == Without(summaries[..i], attemptId)
        {
          assert summaries[..i + 1][..i] == summaries[..i];
          if summaries[i].id != attemptId {
            filtered := filtered + [summaries[i]];
          }
        }
        assert summaries[..|summaries|] == summaries;
        tasks := tasks[taskIndex := tasks[taskIndex].(attempts := filtered)];
        tasks := tasks[taskIndex := tasks[taskIndex].(lastActivityAt := previousActivity)];
      }
    }

    // The task once the first `n` of its summaries have been visited.
    static ghost function MirroredUpTo(t: Task, a: Attempt, now: Time, n: nat): (r: Task)
      requires n <= |t.attempts|
      ensures |r.attempts| == |t.attempts| && (n < |t.attempts| ==> r.attempts[n] == t.attempts[n])
    {
      var full := MirroredSummaries(t.attempts, a, now);
      var visited := t.(attempts := full[..n] + t.attempts[n..]);
      if FirstSummary(t.attempts, a.id) < n then
        visited.(lastActivityAt := now,
                 outcome :=
                   if a.status.Succeeded? then a.outcome
                   else if a.status.Terminal() then Unavailable(LatestFailed)
                   else t.outcome)
      else visited
    }

    static lemma SkipSummary(t: Task, a: Attempt, now: Time, n: nat)
      requires n < |t.attempts| && t.attempts[n].id != a.id
      ensures MirroredUpTo(t, a, now, n + 1) == MirroredUpTo(t, a, now, n)
    {
      var full := MirroredSummaries(t.attempts, a, now);
      assert full[..n + 1] + t.attempts[n + 1..] == full[..n] + t.attempts[n..];
    }

    static lemma VisitSummary(t: Task, a: Attempt, now: Time, n: nat)
      requires n < |t.attempts| && t.attempts[n].id == a.id
      ensures var before := MirroredUpTo(t, a, now, n);
              MirroredUpTo(t, a, now, n + 1) == before.(
                attempts := before.attempts[n := before.attempts[n].(status := a.status, updatedAt := now, finishedAt := a.finishedAt)],
                lastActivityAt := now,
                outcome :=
                  if a.status.Succeeded? then a.outcome
                  else if a.status.Terminal() then Unavailable(LatestFailed)
                  else before.outcome)
    {
      var full := MirroredSummaries(t.attempts, a, now);
      assert full[..n + 1] + t.attempts[n + 1..] == (full[..n] + t.attempts[n..])[n := full[n]];
    }

    static lemma NoneVisited(t: Task, a: Attempt, now: Time)
      ensures MirroredUpTo(t, a, now, 0) == t
    {
      assert MirroredUpTo(t, a, now, 0).attempts == t.attempts;
    }

    static lemma AllVisited(t: Task, a: Attempt, now: Time)
      requires t.id == a.taskId
      ensures MirroredUpTo(t, a, now, |t.attempts|) == MirroredTask(t, a, now)
    {
      var full := MirroredSummaries(t.attempts, a, now);
      assert full[..|t.attempts|] + t.attempts[|t.attempts|..] == full;
      if FirstSummary(t.attempts, a.id) == |t.attempts| {
        assert full == t.attempts;
      }
    }

    // The inner loop of updateAttemptFromRun: every summary of the attempt in one task.
    method MirrorIntoTask(taskIndex: nat, attempt: Attempt, now: Time)
      requires taskIndex < |tasks| && tasks[taskIndex].id == attempt.taskId
      modifies this`tasks
      ensures tasks == old(tasks)[taskIndex := MirroredTask(old(tasks)[taskIndex], attempt, now)]
    {
      hide MirroredUpTo, MirroredTask;
      ghost var was := tasks[taskIndex];
      ghost var others := tasks;
      NoneVisited(was, attempt, now);
      var count := |tasks[taskIndex].attempts|;
      for i := 0 to count
        invariant |tasks| == |others|
        invariant tasks == others[taskIndex := MirroredUpTo(was, attempt, now, i)]
      {
        var task := tasks[taskIndex];
        if task.attempts[i].id == attempt.id {
          VisitSummary(was, attempt, now, i);
          var summary := task.attempts[i].(status := attempt.status, updatedAt := now, finishedAt := attempt.finishedAt);
          var outcome := task.outcome;
          if attempt.status.Succeeded? {
            outcome := attempt.outcome;
          } else if attempt.status.Terminal() {
            outcome := Unavailable(LatestFailed);
          }
          tasks := tasks[taskIndex := task.(
            attempts := task.attempts[i := summary], lastActivityAt := summary.updatedAt, outcome := outcome)];
        } else {
          SkipSummary(was, attempt, now, i);
        }
      }
      AllVisited(was, attempt, now);
    }

    method MirrorRun(info: RunInfo, now: Time) returns (err: Option<MutationError>)
      modifies this
      ensures Effect(old(View()), Mirrored(old(View()), info, now), err)
    {
      var index := IndexAttempt(ByRun(info.runId, info.attemptId));
      if index < 0 {
        return Some(LinkageNotFound);
      }
      var attempt := attempts[index].(status := StatusOfRun(info.status));
      if attempt.status.Running? && attempt.startedAt.None? {
        attempt := attempt.(startedAt := Some(info.startedAt));
      }
      if info.finishedAt.Some? {
        attempt := attempt.(
          finishedAt := info.finishedAt,
          terminal := Some(TerminalSummary(attempt.status, info.errorCode, info.error, attempt.retained)));
        if attempt.status.Succeeded? {
          attempt := attempt.(outcome := Available(attempt.id, attempt.runId, SnapshotPath(attempt.runId)));
        } else {
          attempt := attempt.(outcome := Unavailable(NoOutcome));
        }
      }
      attempts := attempts[index := attempt];
      for i := 0 to |tasks|
        invariant |tasks| == |old(tasks)|
        invariant attempts == old(attempts)[index := attempt]
        invariant forall j :: 0 <= j < i ==> tasks[j] == MirroredTask(old(tasks)[j], attempt, now)
        invariant forall j :: i <= j < |tasks| ==> tasks[j] == old(tasks)[j]
      {
        if tasks[i].id == attempt.taskId {
          MirrorIntoTask(i, attempt, now);
        }
      }
      assert tasks == MirroredTasks(old(tasks), attempt, now);
      return None;
    }

    // The summary loop of markAttemptUnavailableAfterRestart.
    method IndexSummary(taskIndex: nat, id: Id) returns (index: int)
      requires taskIndex < |tasks|
      ensures var ss := tasks[taskIndex].attempts;
              index == if FirstSummary(ss, id) < |ss| then FirstSummary(ss, id) else -1
    {
      var summaries := tasks[taskIndex].attempts;
      for i := 0 to |summaries|
        invariant FirstSummary(summaries, id) == FirstSummary(summaries, id, i)
      {
        if summaries[i].id == id {
          return i;
        }
      }
      return -1;
    }

    method MarkUnavailable(taskId: Id, attemptId: Id, now: Time) returns (err: Option<MutationError>)
      modifies this
      ensures Effect(old(View()), Marked(old(View()), taskId, attemptId, now), err)
    {
      var index := IndexAttempt(ById(taskId, attemptId));
      if index < 0 {
        return Some(LinkageNotFound);
      }
      attempts := attempts[index := MarkedAttempt(attempts[index], now)];
      for i := 0 to |tasks|
        invariant tasks == old(tasks)
        invariant attempts == old(attempts)[index := MarkedAttempt(old(attempts)[index], now)]
        invariant FirstTaskWithSummary(tasks, taskId, attemptId) == FirstTaskWithSummary(tasks, taskId, attemptId, i)
      {
        if tasks[i].id == taskId {
          var si := IndexSummary(i, attemptId);
          if si >= 0 {
            var summary := tasks[i].attempts[si].(status := Failed, updatedAt := now, finishedAt := Some(now));
            tasks := tasks[i := tasks[i].(
              attempts := tasks[i].attempts[si := summary], lastActivityAt := now, outcome := Unavailable(RunLost))];
            return None;
          }
        }
      }
      return None;
    }

    method PatchTask(taskId: Id, expected: int, patch: Patch, now: Time) returns (err: Option<MutationError>)
      modifies this
      ensures Effect(old(View()), Apply(old(View()), TaskHistory.PatchTask(taskId, expected, patch, now)), err)
    {
      var index := IndexTask(taskId);
      if index < 0 {
        return Some(TaskNotFound);
      }
      var task := tasks[index];
      if task.revision != expected {
        return Some(RevisionConflict(expected, task.revision));
      }
      if patch.Empty() {
        return Some(EmptyPatch);
      }
      task := task.(intent := patch.Applied(task.intent));
      task := task.(revision := task.revision + 1, updatedAt := now);
      tasks := tasks[index := task.(lastActivityAt := task.updatedAt)];
      return None;
    }

    method SetArchived(taskId: Id, expected: int, archive: bool, now: Time) returns (err: Option<MutationError>)
      modifies this
      ensures Effect(old(View()), Apply(old(View()), TaskHistory.SetArchived(taskId, expected, archive, now)), err)
    {
      var index := IndexTask(taskId);
      if index < 0 {
        return Some(TaskNotFound);
      }
      var task := tasks[index];
      if task.revision != expected {
        return Some(RevisionConflict(expected, task.revision));
      }
      if archive {
        task := task.(lifecycle := Archived, archivedAt := Some(now));
      } else {
        task := task.(lifecycle := Open, archivedAt := None);
      }
      task := task.(revision := task.revision + 1, updatedAt := now);
      tasks := tasks[index := task.(lastActivityAt := now)];
      return None;
    }

    method LinkPublication(context: PublicationContext, publication: Publication, now: Time)
      returns (err: Option<MutationError>)
      modifies this
      ensures Effect(old(View()), PublishedIn(old(View()), context, publication, now), err)
    {
      var ti := IndexTask(context.taskId);
      var k := IndexAttempt(ById(context.taskId, context.attemptId));
      if !context.ShapeValid() || ti < 0 || k < 0 || attempts[k].runId != Trim(context.runId) {
        return Some(ContextInvalid);
      }
      if !publication.Linked? || publication.attemptId != attempts[k].id || publication.runId != attempts[k].runId {
        return Some(PublicationMismatch);
      }
      tasks := tasks[ti := tasks[ti].(publication := publication)];
      tasks := tasks[ti := tasks[ti].(lastActivityAt := now)];
      attempts := attempts[k := attempts[k].(publication := publication)];
      return None;
    }

    method Run(m: Mutation) returns (err: Option<MutationError>)
      modifies this
      ensures Effect(old(View()), Apply(old(View()), m), err)
    {
      match m
      case CreateTask(task) => tasks := tasks + [task]; err := None;
      case PatchTask(taskId, expected, patch, now) => err := PatchTask(taskId, expected, patch, now);
      case SetArchived(taskId, expected, archive, now) => err := SetArchived(taskId, expected, archive, now);
      case AppendAttempt(taskId, attempt) => err := AppendAttempt(taskId, attempt);
      case RemoveAttempt(taskId, attemptId, previous) => RemoveAttempt(taskId, attemptId, previous); err := None;
      case MirrorRun(info, now) => err := MirrorRun(info, now);
      case MarkUnavailable(taskId, attemptId, now) => err := MarkUnavailable(taskId, attemptId, now);
      case LinkPublication(context, publication, now) => err := LinkPublication(context, publication, now);
    }
  }

  datatype UpdateError = Refused(error: MutationError) | HistoryInvalid | NotPersisted

  // The registry publishes in memory only what is already durable.
  class Registry {
    var snapshot: History

    ghost predicate Valid()
      reads this
    {
      HistoryValid(snapshot)
    }

    constructor (loaded: History)
      requires HistoryValid(loaded)
      ensures Valid() && snapshot == loaded
    {
      snapshot := loaded;
    }

    method Update(m: Mutation, persisted: bool) returns (err: Option<UpdateError>)
      requires Valid()
      modifies this
      ensures Valid()
      ensures snapshot == Publish(old(snapshot), m, persisted)
      ensures err.None? <==> Accepted(old(snapshot), m, persisted)
    {
      var candidate := new Draft(snapshot);
      var refused := candidate.Run(m);
      if refused.Some? {
        return Some(Refused(refused.value));
      }
      var next := History(candidate.tasks, candidate.attempts);
      if !HistoryValid(next) {
        return Some(HistoryInvalid);
      }
      if !persisted {
        return Some(NotPersisted);
      }
      snapshot := next;
      return None;
    }

    // attemptNeedsRunUpdate, on the published snapshot
    method NeedsUpdate(info: RunInfo) returns (needed: bool)
      ensures needed == NeedsRunUpdate(snapshot, info)
    {
      var q := ByRun(info.runId, info.attemptId);
      for i := 0 to |snapshot.attempts|
        invariant FirstAttempt(snapshot.attempts, q) == FirstAttempt(snapshot.attempts, q, i)
      {
        var attempt := snapshot.attempts[i];
        if !q.Matches(attempt) {
          continue;
        }
        var status := StatusOfRun(info.status);
        if attempt.status != status || (info.finishedAt.Some? && attempt.finishedAt.None?)
           || (status.Running? && attempt.startedAt.None?) {
          return true;
        }
        if info.finishedAt.Some? && attempt.finishedAt.Some? && attempt.finishedAt.value != info.finishedAt.value {
          return true;
        }
        return false;
      }
      return false;
    }
  }
}
