// The crash-recoverable publication journal: a prepare record is written, Git is
// moved, the history is linked and the record is cleared. After a restart the Git
// state alone decides which pending record took effect.
module Publication {
  import opened Wrappers
  import opened Text
  import opened TaskHistory
  import opened HistoryDraft

  datatype GitIdentity = GitIdentity(branch: string, headOid: string, baseRef: string, baseOid: string)

  datatype GitState = GitState(identity: GitIdentity, fingerprint: Digest)

  datatype CommitObject = CommitObject(parents: seq<string>, message: string)

  // The workspace repository, as far as reconciliation looks at it.
  datatype Git = Git(state: GitState, commits: map<string, CommitObject>)

  datatype PendingIntent = PendingIntent(
    taskId: Id, attemptId: Id, runId: Id, action: GitAction, targetBranch: string, messageHash: Digest,
    before: GitIdentity, fingerprint: Digest)
  {
    function Context(): PublicationContext {
      PublicationContext(taskId, attemptId, runId)
    }

    function Before(): GitState {
      GitState(before, fingerprint)
    }

    // What decodePublicationIntent demands of a journal entry.
    predicate WellFormed() {
      && IsOpaqueId(taskId) && IsOpaqueId(attemptId) && !Blank(runId)
      && (action.Commit? || action.Branch?)
      && (action.Commit? ==> messageHash.Sha256?)
      && fingerprint.Sha256?
      && !Blank(before.headOid) && !Blank(before.branch)
    }
  }

  type Journal = seq<PendingIntent>

  // A journal with one entry that does not decode cannot be read at all.
  predicate Readable(j: Journal) {
    forall i :: 0 <= i < |j| ==> j[i].WellFormed()
  }

  // A write takes effect, is lost, or takes effect and still reports an error
  // because the directory could not be synced afterwards.
  datatype WriteFate = Written | Lost | WrittenUnsynced

  function Stored(j: Journal, next: Journal, fate: WriteFate): Journal {
    if fate.Lost? then j else next
  }

  function MessageHash(message: string): Digest {
    Sha256(Trim(message))
  }

  function IntentFor(context: PublicationContext, action: GitAction, target: string, message: string, before: GitState): PendingIntent {
    PendingIntent(context.taskId, context.attemptId, context.runId, action, Trim(target), MessageHash(message),
                  before.identity, before.fingerprint)
  }

  datatype PublicationError = ContextRefused | JournalUnreadable | JournalNotWritten | LinkRefused

  // prepareTaskPublication
  function Prepared(h: History, j: Journal, context: PublicationContext, intent: PendingIntent, fate: WriteFate)
    : (Journal, Option<PublicationError>)
  {
    if !context.ShapeValid() then (j, Some(ContextRefused))
    else if !context.Provided() then (j, None)
    else if !context.JoinedIn(h) then (j, Some(ContextRefused))
    else if !Readable(j) then (j, Some(JournalUnreadable))
    else if intent in j then (j, None)
    else (Stored(j, j + [intent], fate), if fate.Written? then None else Some(JournalNotWritten))
  }

  predicate BelongsTo(e: PendingIntent, context: PublicationContext, action: GitAction) {
    e.Context() == context && e.action == action
  }

  // The journal without the context's entries for one action.
  function WithoutContext(j: Journal, context: PublicationContext, action: GitAction): Journal {
    if j == [] then []
    else
      var last := j[|j| - 1];
      WithoutContext(j[..|j| - 1], context, action) + if BelongsTo(last, context, action) then [] else [last]
  }

  // clearTaskPublicationIntent for one action
  function Cleared(j: Journal, context: PublicationContext, action: GitAction, fate: WriteFate): (Journal, Option<PublicationError>) {
    var rest := WithoutContext(j, context, action);
    if !context.Provided() then (j, None)
    else if !Readable(j) then (j, Some(JournalUnreadable))
    else if |rest| == |j| then (j, None)
    else (Stored(j, rest, fate), if fate.Written? then None else Some(JournalNotWritten))
  }

  // buildTaskPublication
  function Built(action: GitAction, context: PublicationContext, before: GitState, after: GitState): TaskHistory.Publication {
    Linked(Trim(context.attemptId), Trim(context.runId), action, after.identity.branch, before.identity.baseRef,
           before.identity.baseOid, after.identity.headOid, after.identity.headOid, before.fingerprint)
  }

  // How one registry update, journal write and Git observation turn out.
  datatype Turn = Turn(observed: bool, persisted: bool, write: WriteFate, now: Time)

  // recordTaskPublication
  function Recorded(h: History, j: Journal, context: PublicationContext, p: TaskHistory.Publication, turn: Turn)
    : (History, Journal, Option<PublicationError>)
  {
    if !context.ShapeValid() then (h, j, Some(ContextRefused))
    else if !context.Provided() then (h, j, None)
    else
      var m := LinkPublication(context, p, turn.now);
      if !Accepted(h, m, turn.persisted) then (h, j, Some(LinkRefused))
      else
        var cleared := Cleared(j, context, p.action, turn.write);
        (Publish(h, m, turn.persisted), cleared.0, cleared.1)
  }

  // pendingPublicationWasApplied
  predicate Applied(git: Git, e: PendingIntent) {
    var now := git.state.identity;
    match e.action
    case Branch => !Blank(e.targetBranch) && now.branch == e.targetBranch && now.headOid == e.before.headOid
    case Commit =>
      && now.branch == e.before.branch && now.headOid != "" && now.headOid != e.before.headOid
      && now.headOid in git.commits
      && git.commits[now.headOid].parents == [e.before.headOid]
      && MessageHash(git.commits[now.headOid].message) == e.messageHash
    case _ => false
  }

  function Attempted(h: History, j: Journal, git: Git, e: PendingIntent, turn: Turn): (History, Journal, Option<PublicationError>) {
    Recorded(h, j, e.Context(), Built(e.action, e.Context(), e.Before(), git.state), turn)
  }

  // reconcilePendingTaskPublications, from entry i of the journal it read
  function Reconciled(h: History, j: Journal, read: Journal, git: Git, turns: nat -> Turn, i: nat := 0): (History, Journal)
    requires i <= |read|
    decreases |read| - i
  {
    if i == |read| then (h, j)
    else if !turns(i).observed || !Applied(git, read[i]) then Reconciled(h, j, read, git, turns, i + 1)
    else
      var tried := Attempted(h, j, git, read[i], turns(i));
      if tried.2.None? then (tried.0, tried.1) else Reconciled(tried.0, tried.1, read, git, turns, i + 1)
  }

  function Restarted(h: History, j: Journal, git: Git, turns: nat -> Turn): (History, Journal) {
    if Readable(j) then Reconciled(h, j, j, git, turns) else (h, j)
  }

  // ---------------------------------------------------------------- a request and its crashes

  // A confirmed commit or proposal-branch request, after its own checks passed.
  datatype Request = Request(context: PublicationContext, action: GitAction, target: string, message: string) {
    function Entry(git: Git): PendingIntent {
      IntentFor(context, action, target, message, git.state)
    }
  }

  datatype World = World(h: History, j: Journal, git: Git)

  // How far a request got before the process stopped.
  datatype Progress = Nothing | IntentKept | GitMoved | HistoryLinked | Done

  // handleGitCommit and handleGitProposalBranch on a provided context; Git refuses to
  // move when `moved` is None.
  function Served(w: World, r: Request, moved: Option<Git>, fate: WriteFate, turn: Turn, at: Progress): World {
    var e := r.Entry(w.git);
    var prepared := Prepared(w.h, w.j, r.context, e, fate);
    if at.Nothing? then w
    else if prepared.1.Some? || at.IntentKept? then w.(j := prepared.0)
    else if moved.None? then w.(j := Cleared(prepared.0, r.context, r.action, turn.write).0)
    else
      var built := Built(e.action, e.Context(), e.Before(), moved.value.state);
      var linked := Publish(w.h, LinkPublication(r.context, built, turn.now), turn.persisted);
      match at
      case GitMoved => World(w.h, prepared.0, moved.value)
      case HistoryLinked => World(linked, prepared.0, moved.value)
      case _ =>
        var tried := Attempted(w.h, prepared.0, moved.value, e, turn);
        World(tried.0, tried.1, moved.value)
  }

  // Restart after restart, with no Git movement in between.
  function Restarts(w: World, plans: seq<nat -> Turn>): World {
    if plans == [] then w
    else
      var last := Restarts(w, plans[..|plans| - 1]);
      var next := Restarted(last.h, last.j, last.git, plans[|plans| - 1]);
      World(next.0, next.1, last.git)
  }

  // ---------------------------------------------------------------- the journal as the server runs it

  class JournalFile {
    var entries: Journal

    constructor (loaded: Journal)
      ensures entries == loaded
    {
      entries := loaded;
    }

    method Read() returns (ok: bool)
      ensures ok == Readable(entries)
    {
      for i := 0 to |entries|
        invariant forall k :: 0 <= k < i ==> entries[k].WellFormed()
      {
        if !entries[i].WellFormed() {
          return false;
        }
      }
      return true;
    }

    method Write(next: Journal, fate: WriteFate) returns (err: Option<PublicationError>)
      modifies this
      ensures entries == Stored(old(entries), next, fate)
      ensures err == if fate.Written? then None else Some(JournalNotWritten)
    {
      if fate.Lost? {
        return Some(JournalNotWritten);
      }
      entries := next;
      return if fate.Written? then None else Some(JournalNotWritten);
    }

    method Prepare(h: History, context: PublicationContext, intent: PendingIntent, fate: WriteFate)
      returns (err: Option<PublicationError>)
      modifies this
      ensures (entries, err) == Prepared(h, old(entries), context, intent, fate)
    {
      if !context.ShapeValid() {
        return Some(ContextRefused);
      }
      if !context.Provided() {
        return None;
      }
      if !context.JoinedIn(h) {
        return Some(ContextRefused);
      }
      var readable := Read();
      if !readable {
        return Some(JournalUnreadable);
      }
      for i := 0 to |entries|
        invariant entries == old(entries)
        invariant intent !in entries[..i]
      {
        if entries[i] == intent {
          return None;
        }
      }
      err := Write(entries + [intent], fate);
    }

    method Others(context: PublicationContext, action: GitAction) returns (filtered: Journal)
      ensures filtered == WithoutContext(entries, context, action)
    {
      hide BelongsTo;
      filtered := [];
      for i := 0 to |entries|
        invariant filtered == WithoutContext(entries[..i], context, action)
      {
        assert entries[..i + 1][..i] == entries[..i];
        if !BelongsTo(entries[i], context, action) {
          filtered := filtered + [entries[i]];
        }
      }
      assert entries[..|entries|] == entries;
    }

    method Clear(context: PublicationContext, action: GitAction, fate: WriteFate) returns (err: Option<PublicationError>)
      modifies this
      ensures (entries, err) == Cleared(old(entries), context, action, fate)
    {
      if !context.Provided() {
        return None;
      }
      var readable := Read();
      if !readable {
        return Some(JournalUnreadable);
      }
      var filtered := Others(context, action);
      if |filtered| == |entries| {
        return None;
      }
      err := Write(filtered, fate);
    }

    method Record(registry: Registry, context: PublicationContext, p: TaskHistory.Publication, turn: Turn)
      returns (err: Option<PublicationError>)
      requires registry.Valid()
      modifies this, registry
      ensures registry.Valid()
      ensures (registry.snapshot, entries, err) == Recorded(old(registry.snapshot), old(entries), context, p, turn)
    {
      if !context.ShapeValid() {
        return Some(ContextRefused);
      }
      if !context.Provided() {
        return None;
      }
      var refused := registry.Update(LinkPublication(context, p, turn.now), turn.persisted);
      if refused.Some? {
        return Some(LinkRefused);
      }
      err := Clear(context, p.action, turn.write);
    }

    method Reconcile(registry: Registry, git: Git, turns: nat -> Turn)
      requires registry.Valid()
      modifies this, registry
      ensures registry.Valid()
      ensures (registry.snapshot, entries) == Restarted(old(registry.snapshot), old(entries), git, turns)
    {
      var readable := Read();
      if !readable {
        return;
      }
      var intents := entries;
      for i := 0 to |intents|
        invariant registry.Valid()
        invariant Reconciled(registry.snapshot, entries, intents, git, turns, i)
                  == Reconciled(old(registry.snapshot), old(entries), intents, git, turns)
      {
        var intent := intents[i];
        if !turns(i).observed || !Applied(git, intent) {
          continue;
        }
        var publication := Built(intent.action, intent.Context(), intent.Before(), git.state);
        var failed := Record(registry, intent.Context(), publication, turns(i));
        if failed.Some? {
          continue;
        }
        return;
      }
    }

    method Serve(registry: Registry, git: Git, r: Request, moved: Option<Git>, fate: WriteFate, turn: Turn)
      returns (published: bool)
      requires registry.Valid() && r.context.Provided()
      modifies this, registry
      ensures registry.Valid()
      ensures var done := Served(World(old(registry.snapshot), old(entries), git), r, moved, fate, turn, Done);
              registry.snapshot == done.h && entries == done.j
      ensures var prepared := Prepared(old(registry.snapshot), old(entries), r.context, r.Entry(git), fate);
              published <==>
                && moved.Some? && prepared.1.None?
                && Attempted(old(registry.snapshot), prepared.0, moved.value, r.Entry(git), turn).2.None?
    {
      hide Prepared, Cleared, Recorded, Built;
      var refused := Prepare(registry.snapshot, r.context, r.Entry(git), fate);
      if refused.Some? {
        return false;
      }
      if moved.None? {
        var ignored := Clear(r.context, r.action, turn.write);
        return false;
      }
      var publication := Built(r.action, r.context, git.state, moved.value.state);
      var failed := Record(registry, r.context, publication, turn);
      return failed.None?;
    }
  }
}
