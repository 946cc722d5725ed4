// What restart reconciliation may and must do with the publication journal.
module PublicationProof {
  import opened Wrappers
  import opened Text
  import opened TaskHistory
  import opened HistoryInvariants
  import opened Acceptance
  import opened Publication

  // ---------------------------------------------------------------- links, up to activity times

  // The same history, up to when its tasks were last active.
  predicate Alike(h: History, g: History) {
    && g.attempts == h.attempts
    && |g.tasks| == |h.tasks|
    && forall i :: 0 <= i < |h.tasks| ==> g.tasks[i] == h.tasks[i].(lastActivityAt := g.tasks[i].lastActivityAt)
  }

  function PublicationOf(e: PendingIntent, git: Git): TaskHistory.Publication {
    Built(e.action, e.Context(), e.Before(), git.state)
  }

  // The publication names the exact join, where Git stands now, and what was seen before.
  predicate Says(p: TaskHistory.Publication, e: PendingIntent, now: GitIdentity) {
    && p.Linked? && p.attemptId == Trim(e.attemptId) && p.runId == Trim(e.runId) && p.action == e.action
    && p.branch == now.branch && p.headOid == now.headOid && p.commit == now.headOid
    && p.baseRef == e.before.baseRef && p.baseOid == e.before.baseOid && p.inventory == e.fingerprint
  }

  // And Git bears it out: a commit has the old HEAD as its one parent and the message asked
  // for; a branch is the one asked for, at the old HEAD.
  predicate BorneOut(p: TaskHistory.Publication, e: PendingIntent, git: Git) {
    && Says(p, e, git.state.identity)
    && (e.action.Commit? ==>
          && p.commit in git.commits && git.commits[p.commit].parents == [e.before.headOid] && p.commit != e.before.headOid
          && Sha256(Trim(git.commits[p.commit].message)) == e.messageHash && p.branch == e.before.branch)
    && (e.action.Branch? ==> p.branch == e.targetBranch && p.commit == e.before.headOid)
    && (e.action.Commit? || e.action.Branch?)
  }

  lemma ProvenIsBorneOut(e: PendingIntent, git: Git)
    ensures Says(PublicationOf(e, git), e, git.state.identity)
    ensures Applied(git, e) ==> BorneOut(PublicationOf(e, git), e, git)
  {
    hide Trim;
  }

  function LinkOf(e: PendingIntent, git: Git, now: Time): Mutation {
    LinkPublication(e.Context(), PublicationOf(e, git), now)
  }

  // The history with the publication of one intent on its task and attempt.
  function Linkage(h: History, e: PendingIntent, git: Git): History
    requires e.Context().JoinedIn(h)
  {
    var p := PublicationOf(e, git);
    var ti := FirstTask(h.tasks, e.taskId);
    var k := FirstAttempt(h.attempts, ById(e.taskId, e.attemptId));
    History(h.tasks[ti := h.tasks[ti].(publication := p)], h.attempts[k := h.attempts[k].(publication := p)])
  }

  // The publication is complete and its task still takes activity at this time.
  predicate Fits(h: History, e: PendingIntent, git: Git, now: Time) {
    && e.Context().JoinedIn(h)
    && PublicationValid(PublicationOf(e, git), true)
    && Trim(e.attemptId) == e.attemptId
    && ActivityFits(h.tasks[FirstTask(h.tasks, e.taskId)], now)
  }

  lemma {:induction false} AlikeTasks(ts: seq<Task>, us: seq<Task>, id: Id, from: nat)
    requires |ts| == |us| && from <= |ts|
    requires forall i :: 0 <= i < |ts| ==> us[i].id == ts[i].id
    ensures FirstTask(us, id, from) == FirstTask(ts, id, from)
    decreases |ts| - from
  {
    if from < |ts| && ts[from].id != id {
      AlikeTasks(ts, us, id, from + 1);
    }
  }

  lemma {:induction false} AlikeAttempts(xs: seq<Attempt>, ys: seq<Attempt>, q: AttemptQuery, from: nat)
    requires |xs| == |ys| && from <= |xs|
    requires forall i :: 0 <= i < |xs| ==> ys[i].(publication := xs[i].publication) == xs[i]
    ensures FirstAttempt(ys, q, from) == FirstAttempt(xs, q, from)
    decreases |xs| - from
  {
    if from < |xs| && !q.Matches(xs[from]) {
      AlikeAttempts(xs, ys, q, from + 1);
    }
  }

  // Publications and activity aside, the two histories are the same.
  predicate SameJoins(h: History, g: History) {
    && |g.tasks| == |h.tasks| && |g.attempts| == |h.attempts|
    && (forall i :: 0 <= i < |h.tasks| ==>
          h.tasks[i].(publication := g.tasks[i].publication, lastActivityAt := g.tasks[i].lastActivityAt) == g.tasks[i])
    && (forall i :: 0 <= i < |h.attempts| ==> g.attempts[i].(publication := h.attempts[i].publication) == h.attempts[i])
  }

  lemma JoinsCarry(h: History, g: History, c: PublicationContext)
    requires SameJoins(h, g)
    ensures c.JoinedIn(h) <==> c.JoinedIn(g)
    ensures FirstTask(g.tasks, c.taskId) == FirstTask(h.tasks, c.taskId)
    ensures FirstAttempt(g.attempts, ById(c.taskId, c.attemptId)) == FirstAttempt(h.attempts, ById(c.taskId, c.attemptId))
  {
    hide IsOpaqueId;
    assert forall i :: 0 <= i < |h.tasks| ==> g.tasks[i].id == h.tasks[i].id;
    AlikeTasks(h.tasks, g.tasks, c.taskId, 0);
    AlikeAttempts(h.attempts, g.attempts, ById(c.taskId, c.attemptId), 0);
  }

  lemma LinkIsAccepted(h: History, e: PendingIntent, git: Git, now: Time)
    requires HistoryValid(h) && Fits(h, e, git, now)
    ensures Accepted(h, LinkOf(e, git, now), true)
  {
    LinkAcceptedExactly(h, e.Context(), PublicationOf(e, git), now);
  }

  lemma FitsCarry(h: History, g: History, e: PendingIntent, git: Git, now: Time)
    requires SameJoins(h, g)
    ensures Fits(h, e, git, now) <==> Fits(g, e, git, now)
  {
    hide PublicationValid, PublicationOf, IsOpaqueId;
    JoinsCarry(h, g, e.Context());
  }

  lemma AlikeJoins(h: History, g: History)
    requires Alike(h, g)
    ensures SameJoins(h, g)
  {
  }

  lemma LinkageJoins(h: History, e: PendingIntent, git: Git)
    requires e.Context().JoinedIn(h)
    ensures SameJoins(h, Linkage(h, e, git))
  {
    hide PublicationOf, IsOpaqueId;
  }

  lemma JoinsCompose(h: History, g: History, k: History)
    requires SameJoins(h, g) && SameJoins(g, k)
    ensures SameJoins(h, k)
  {
  }

  // Linking lands on the named task and attempt, whether they were linked before or not.
  lemma LinkLands(h: History, g: History, e: PendingIntent, git: Git, now: Time, persisted: bool)
    requires e.Context().JoinedIn(h) && (Alike(h, g) || Alike(Linkage(h, e, git), g))
    requires Accepted(g, LinkOf(e, git, now), persisted)
    ensures Alike(Linkage(h, e, git), Publish(g, LinkOf(e, git, now), persisted))
  {
    hide HistoryValid, PublicationOf, IsOpaqueId;
    LinkageJoins(h, e, git);
    if Alike(h, g) {
      AlikeJoins(h, g);
    } else {
      AlikeJoins(Linkage(h, e, git), g);
      JoinsCompose(h, Linkage(h, e, git), g);
    }
    JoinsCarry(h, g, e.Context());
  }

  // ---------------------------------------------------------------- one pending mutation

  // No entry but e looks applied in this Git state.
  predicate OnlyApplied(j: Journal, git: Git, e: PendingIntent) {
    forall n {:trigger Applied(git, j[n])} :: 0 <= n < |j| && Applied(git, j[n]) ==> j[n] == e
  }

  // Git could be observed, the registry could write and the link is due.
  predicate Succeeds(h: History, e: PendingIntent, git: Git, turn: Turn) {
    turn.observed && turn.persisted && Fits(h, e, git, turn.now)
  }

  // h is where the run stood before the link, or where it stands after it.
  predicate Settling(h0: History, e: PendingIntent, git: Git, h: History)
    requires e.Context().JoinedIn(h0)
  {
    HistoryValid(h) && (Alike(h0, h) || Alike(Linkage(h0, e, git), h))
  }

  lemma ShapeOfWellFormed(e: PendingIntent)
    requires e.WellFormed()
    ensures e.Context().ShapeValid() && e.Context().Provided()
  {
    hide Trim, IsOpaqueId;
  }

  lemma AttemptSettles(h0: History, e: PendingIntent, git: Git, h: History, j: Journal, turn: Turn)
    requires e.WellFormed() && e.Context().JoinedIn(h0) && Settling(h0, e, git, h)
    ensures var tried := Attempted(h, j, git, e, turn);
            && Settling(h0, e, git, tried.0)
            && (Alike(Linkage(h0, e, git), h) ==> Alike(Linkage(h0, e, git), tried.0))
            && (Succeeds(h0, e, git, turn) || tried.2.None? ==> Alike(Linkage(h0, e, git), tried.0))
            && (e in j ==> e in tried.1 || Alike(Linkage(h0, e, git), tried.0))
  {
    ShapeOfWellFormed(e);
    if Succeeds(h0, e, git, turn) {
      SettlingFits(h0, e, git, h, turn.now);
      LinkIsAccepted(h, e, git, turn.now);
    }
    if Accepted(h, LinkOf(e, git, turn.now), turn.persisted) {
      LinkLands(h0, h, e, git, turn.now, turn.persisted);
    }
    hide HistoryValid, PublicationOf, Linkage, Cleared, Apply, IsOpaqueId;
  }

  lemma SettlingFits(h0: History, e: PendingIntent, git: Git, h: History, now: Time)
    requires e.Context().JoinedIn(h0) && Settling(h0, e, git, h)
    ensures Fits(h0, e, git, now) <==> Fits(h, e, git, now)
  {
    hide HistoryValid, Fits;
    LinkageJoins(h0, e, git);
    if Alike(h0, h) {
      AlikeJoins(h0, h);
    } else {
      AlikeJoins(Linkage(h0, e, git), h);
      JoinsCompose(h0, Linkage(h0, e, git), h);
    }
    FitsCarry(h0, h, e, git, now);
  }

  lemma {:induction false} ReconciledSettles(
      h0: History, e: PendingIntent, git: Git, h: History, j: Journal, read: Journal, turns: nat -> Turn, i: nat)
    requires e.WellFormed() && e.Context().JoinedIn(h0) && Settling(h0, e, git, h)
    requires i <= |read| && OnlyApplied(read, git, e)
    ensures var r := Reconciled(h, j, read, git, turns, i);
            && Settling(h0, e, git, r.0)
            && (Alike(Linkage(h0, e, git), h) ==> Alike(Linkage(h0, e, git), r.0))
            && (e in j ==> e in r.1 || Alike(Linkage(h0, e, git), r.0))
            && (Applied(git, e) && (exists n :: i <= n < |read| && read[n] == e && Succeeds(h0, e, git, turns(n)))
                ==> Alike(Linkage(h0, e, git), r.0))
    decreases |read| - i
  {
    hide HistoryValid, Linkage, Alike, Settling, Applied, Attempted, Succeeds;
    if i < |read| {
      if !turns(i).observed || !Applied(git, read[i]) {
        NotSucceeding(h0, e, git, turns(i));
        ReconciledSettles(h0, e, git, h, j, read, turns, i + 1);
      } else {
        AttemptSettles(h0, e, git, h, j, turns(i));
        var tried := Attempted(h, j, git, read[i], turns(i));
        if tried.2.Some? {
          ReconciledSettles(h0, e, git, tried.0, tried.1, read, turns, i + 1);
        }
      }
    }
  }

  lemma NotSucceeding(h: History, e: PendingIntent, git: Git, turn: Turn)
    ensures !turn.observed ==> !Succeeds(h, e, git, turn)
  {
  }

  // ---------------------------------------------------------------- journals only shrink

  lemma {:induction false} OthersAreKept(j: Journal, context: PublicationContext, action: GitAction, x: PendingIntent)
    ensures x in WithoutContext(j, context, action)
            <==> x in j && !(x.taskId == context.taskId && x.attemptId == context.attemptId && x.runId == context.runId
                             && x.action == action)
    ensures |WithoutContext(j, context, action)| <= |j|
    ensures |WithoutContext(j, context, action)| == |j| ==> WithoutContext(j, context, action) == j
  {
    if j != [] {
      OthersAreKept(j[..|j| - 1], context, action, x);
    }
  }

  predicate Within(k: Journal, j: Journal) {
    forall x :: x in k ==> x in j
  }

  lemma ClearedWithin(j: Journal, context: PublicationContext, action: GitAction, fate: WriteFate)
    ensures Within(Cleared(j, context, action, fate).0, j)
  {
    hide Readable;
    forall x | x in WithoutContext(j, context, action)
      ensures x in j
    {
      OthersAreKept(j, context, action, x);
    }
  }

  lemma AttemptedWithin(h: History, j: Journal, git: Git, e: PendingIntent, turn: Turn)
    ensures Within(Attempted(h, j, git, e, turn).1, j)
  {
    hide Accepted, Publish, Readable, Cleared, PublicationContext.ShapeValid;
    ClearedWithin(j, e.Context(), e.action, turn.write);
  }

  lemma {:induction false} ReconciledWithin(h: History, j: Journal, read: Journal, git: Git, turns: nat -> Turn, i: nat)
    requires i <= |read|
    ensures Within(Reconciled(h, j, read, git, turns, i).1, j)
    decreases |read| - i
  {
    hide Applied, Attempted;
    if i < |read| {
      if !turns(i).observed || !Applied(git, read[i]) {
        ReconciledWithin(h, j, read, git, turns, i + 1);
      } else {
        var e := read[i];
        AttemptedWithin(h, j, git, e, turns(i));
        var tried := Attempted(h, j, git, e, turns(i));
        if tried.2.Some? {
          ReconciledWithin(tried.0, tried.1, read, git, turns, i + 1);
        }
      }
    }
  }

  lemma WithinOnly(j: Journal, k: Journal, git: Git, e: PendingIntent)
    requires OnlyApplied(j, git, e) && Within(k, j)
    ensures OnlyApplied(k, git, e)
  {
    hide Applied;
    forall n | 0 <= n < |k| && Applied(git, k[n])
      ensures k[n] == e
    {
      assert k[n] in j;
      var m :| 0 <= m < |j| && j[m] == k[n];
      assert Applied(git, j[m]);
    }
  }

  // ---------------------------------------------------------------- crash recovery

  // One pending intent, on a history that has its link or not.
  predicate Pending(h0: History, e: PendingIntent, w: World) {
    && e.WellFormed() && e.Context().JoinedIn(h0)
    && Settling(h0, e, w.git, w.h)
    && Readable(w.j) && OnlyApplied(w.j, w.git, e)
    && (e in w.j || Alike(Linkage(h0, e, w.git), w.h))
  }

  ghost predicate GoodPlan(h: History, e: PendingIntent, git: Git, plan: nat -> Turn) {
    forall n: nat :: Succeeds(h, e, git, plan(n))
  }

  lemma WithinReadable(j: Journal, k: Journal)
    requires Readable(j) && Within(k, j)
    ensures Readable(k)
  {
    hide PendingIntent.WellFormed;
    forall i | 0 <= i < |k|
      ensures k[i].WellFormed()
    {
      assert k[i] in j;
    }
  }

  lemma RestartSettles(h0: History, e: PendingIntent, w: World, plan: nat -> Turn)
    requires Pending(h0, e, w)
    ensures var r := Restarted(w.h, w.j, w.git, plan);
            && Pending(h0, e, World(r.0, r.1, w.git))
            && (Alike(Linkage(h0, e, w.git), w.h) ==> Alike(Linkage(h0, e, w.git), r.0))
            && (Applied(w.git, e) && GoodPlan(h0, e, w.git, plan) ==> Alike(Linkage(h0, e, w.git), r.0))
  {
    hide Settling, Linkage, Alike, Applied, Succeeds, Readable, OnlyApplied, Reconciled;
    ReconciledSettles(h0, e, w.git, w.h, w.j, w.j, plan, 0);
    ReconciledWithin(w.h, w.j, w.j, w.git, plan, 0);
    var r := Reconciled(w.h, w.j, w.j, w.git, plan);
    WithinReadable(w.j, r.1);
    WithinOnly(w.j, r.1, w.git, e);
  }

  lemma {:induction false} RestartsSettle(h0: History, e: PendingIntent, w: World, plans: seq<nat -> Turn>)
    requires Pending(h0, e, w)
    ensures var r := Restarts(w, plans);
            && r.git == w.git && Pending(h0, e, r)
            && (Alike(Linkage(h0, e, w.git), w.h) ==> Alike(Linkage(h0, e, w.git), r.h))
            && (Applied(w.git, e) && (exists x :: 0 <= x < |plans| && GoodPlan(h0, e, w.git, plans[x]))
                ==> Alike(Linkage(h0, e, w.git), r.h))
  {
    hide Pending, Linkage, Alike, Applied, GoodPlan, Restarted;
    if plans != [] {
      RestartsSettle(h0, e, w, plans[..|plans| - 1]);
      RestartSettles(h0, e, Restarts(w, plans[..|plans| - 1]), plans[|plans| - 1]);
    }
  }

  // No entry looks applied.
  predicate NoneApplied(j: Journal, git: Git) {
    forall n :: 0 <= n < |j| ==> !Applied(git, j[n])
  }

  lemma {:induction false} NothingToReconcile(h: History, j: Journal, read: Journal, git: Git, turns: nat -> Turn, i: nat)
    requires i <= |read| && NoneApplied(read, git)
    ensures Reconciled(h, j, read, git, turns, i) == (h, j)
    decreases |read| - i
  {
    hide Applied;
    if i < |read| {
      NothingToReconcile(h, j, read, git, turns, i + 1);
    }
  }

  lemma {:induction false} NothingToRestart(w: World, plans: seq<nat -> Turn>)
    requires NoneApplied(w.j, w.git)
    ensures Restarts(w, plans) == w
  {
    hide NoneApplied, Readable, Reconciled;
    if plans != [] {
      NothingToRestart(w, plans[..|plans| - 1]);
      NothingToReconcile(w.h, w.j, w.j, w.git, plans[|plans| - 1], 0);
    }
  }

  // The request's checks passed and its intent can be kept.
  predicate Confirmed(w: World, r: Request) {
    && HistoryValid(w.h) && Readable(w.j)
    && r.context.JoinedIn(w.h) && r.Entry(w.git).WellFormed()
  }

  lemma ConfirmedIsProvided(w: World, r: Request)
    requires Confirmed(w, r)
    ensures r.context.ShapeValid() && r.context.Provided()
  {
    hide HistoryValid, Readable;
    ShapeOfWellFormed(r.Entry(w.git));
  }

  lemma PreparedJournal(w: World, r: Request, fate: WriteFate, after: Git)
    requires Confirmed(w, r)
    ensures var kept := Prepared(w.h, w.j, r.context, r.Entry(w.git), fate);
            && Readable(kept.0)
            && (kept.1.None? ==> r.Entry(w.git) in kept.0)
            && (OnlyApplied(w.j, after, r.Entry(w.git)) ==> OnlyApplied(kept.0, after, r.Entry(w.git)))
            && (NoneApplied(w.j, after) && !Applied(after, r.Entry(w.git)) ==> NoneApplied(kept.0, after))
  {
    ConfirmedIsProvided(w, r);
    hide HistoryValid, Applied, PendingIntent.WellFormed, Request.Entry, PublicationContext.ShapeValid;
  }

  lemma PublishedIsValid(h: History, m: Mutation, persisted: bool)
    requires HistoryValid(h)
    ensures HistoryValid(Publish(h, m, persisted))
  {
    hide Apply;
  }

  // Where the request stands at each crash point after Git moved.
  lemma ServedIsPending(w: World, r: Request, after: Git, fate: WriteFate, turn: Turn, at: Progress)
    requires Confirmed(w, r) && (at.GitMoved? || at.HistoryLinked? || at.Done?)
    requires OnlyApplied(w.j, after, r.Entry(w.git))
    requires Prepared(w.h, w.j, r.context, r.Entry(w.git), fate).1.None?
    requires Succeeds(w.h, r.Entry(w.git), after, turn)
    ensures var now := Served(w, r, Some(after), fate, turn, at);
            && now.git == after && Pending(w.h, r.Entry(w.git), now)
            && (at.GitMoved? ==> now.h == w.h)
            && (!at.GitMoved? ==> Alike(Linkage(w.h, r.Entry(w.git), after), now.h))
  {
    var e := r.Entry(w.git);
    ServedIs(w, r, after, fate, turn, at);
    EntryFits(w, r);
    assert Alike(w.h, w.h);
    hide HistoryValid, Applied, Attempted, Prepared, Linkage, Readable, OnlyApplied, Publish, Accepted, Served, Fits, Confirmed;
    hide PendingIntent.WellFormed, PublicationContext.JoinedIn, Alike, LinkOf;
    PreparedJournal(w, r, fate, after);
    LinkIsAccepted(w.h, e, after, turn.now);
    LinkLands(w.h, w.h, e, after, turn.now, turn.persisted);
    var kept := Prepared(w.h, w.j, r.context, e, fate).0;
    AttemptSettles(w.h, e, after, w.h, kept, turn);
    AttemptedWithin(w.h, kept, after, e, turn);
    var tried := Attempted(w.h, kept, after, e, turn);
    WithinReadable(kept, tried.1);
    WithinOnly(kept, tried.1, after, e);
    PublishedIsValid(w.h, LinkOf(e, after, turn.now), turn.persisted);
  }

  lemma EntryFits(w: World, r: Request)
    requires Confirmed(w, r)
    ensures HistoryValid(w.h) && r.Entry(w.git).WellFormed() && r.Entry(w.git).Context().JoinedIn(w.h)
  {
    hide HistoryValid, PendingIntent.WellFormed, PublicationContext.JoinedIn;
  }

  // What each crash point after Git moved leaves behind.
  lemma ServedIs(w: World, r: Request, after: Git, fate: WriteFate, turn: Turn, at: Progress)
    requires at.GitMoved? || at.HistoryLinked? || at.Done?
    requires Confirmed(w, r) && Prepared(w.h, w.j, r.context, r.Entry(w.git), fate).1.None?
    ensures var e := r.Entry(w.git);
            var kept := Prepared(w.h, w.j, r.context, e, fate).0;
            var tried := Attempted(w.h, kept, after, e, turn);
            Served(w, r, Some(after), fate, turn, at)
            == match at
               case GitMoved => World(w.h, kept, after)
               case HistoryLinked => World(Publish(w.h, LinkOf(e, after, turn.now), turn.persisted), kept, after)
               case _ => World(tried.0, tried.1, after)
  {
    hide Attempted, Prepared, Publish, HistoryValid, PendingIntent.WellFormed, PublicationContext.JoinedIn;
  }

  lemma AlikeMeets(h: History, g: History, k: History)
    requires Alike(h, g) && Alike(h, k)
    ensures Alike(g, k)
  {
  }

  // A crash after Git moved, then restarts of any number and any luck: the history holds
  // either the uncrashed request's publications or, while nothing was linked, the old ones.
  lemma CrashAfterGitMoved(
      w: World, r: Request, after: Git, fate: WriteFate, turn: Turn, at: Progress, plans: seq<nat -> Turn>)
    requires Confirmed(w, r) && (at.GitMoved? || at.HistoryLinked? || at.Done?)
    requires OnlyApplied(w.j, after, r.Entry(w.git))
    requires Prepared(w.h, w.j, r.context, r.Entry(w.git), fate).1.None?
    requires Succeeds(w.h, r.Entry(w.git), after, turn)
    ensures var done := Served(w, r, Some(after), fate, turn, Done);
            var back := Restarts(Served(w, r, Some(after), fate, turn, at), plans);
            && (Alike(w.h, back.h) || Alike(done.h, back.h))
            && (!at.GitMoved? ==> Alike(done.h, back.h))
            && (Applied(after, r.Entry(w.git)) && (exists x :: 0 <= x < |plans| && GoodPlan(w.h, r.Entry(w.git), after, plans[x]))
                ==> Alike(done.h, back.h))
  {
    var e := r.Entry(w.git);
    ServedIsPending(w, r, after, fate, turn, at);
    ServedIsPending(w, r, after, fate, turn, Done);
    var now, done := Served(w, r, Some(after), fate, turn, at), Served(w, r, Some(after), fate, turn, Done);
    RestartsSettle(w.h, e, now, plans);
    var back := Restarts(now, plans);
    assert Settling(w.h, e, after, back.h);
    if Alike(Linkage(w.h, e, after), back.h) {
      AlikeMeets(Linkage(w.h, e, after), done.h, back.h);
    }
    hide Confirmed, Prepared, Succeeds, Applied, OnlyApplied, GoodPlan, Served, Restarts, Pending, Linkage, Alike, HistoryValid;
  }

  lemma LinkageShows(h: History, e: PendingIntent, git: Git, g: History)
    requires e.Context().JoinedIn(h) && Alike(Linkage(h, e, git), g)
    ensures var k := FirstAttempt(h.attempts, ById(e.taskId, e.attemptId));
            k < |g.attempts| && g.attempts[k].publication == PublicationOf(e, git)
  {
    hide PublicationOf;
  }

  // Recovery from a crash between the Git move and the link is exact: restarts reach the
  // uncrashed publications if and only if the Git state still proves the intent.
  lemma RecoveryIsExact(
      w: World, r: Request, after: Git, fate: WriteFate, turn: Turn, plans: seq<nat -> Turn>)
    requires Confirmed(w, r) && OnlyApplied(w.j, after, r.Entry(w.git))
    requires Prepared(w.h, w.j, r.context, r.Entry(w.git), fate).1.None?
    requires Succeeds(w.h, r.Entry(w.git), after, turn)
    requires exists x :: 0 <= x < |plans| && GoodPlan(w.h, r.Entry(w.git), after, plans[x])
    requires var k := FirstAttempt(w.h.attempts, ById(r.context.taskId, r.context.attemptId));
             w.h.attempts[k].publication != PublicationOf(r.Entry(w.git), after)
    ensures var done := Served(w, r, Some(after), fate, turn, Done);
            var back := Restarts(Served(w, r, Some(after), fate, turn, GitMoved), plans);
            && (Alike(done.h, back.h) <==> Applied(after, r.Entry(w.git)))
            && (!Applied(after, r.Entry(w.git)) ==> back.h == w.h)
  {
    var e := r.Entry(w.git);
    CrashAfterGitMoved(w, r, after, fate, turn, GitMoved, plans);
    ServedIsPending(w, r, after, fate, turn, GitMoved);
    ServedIsPending(w, r, after, fate, turn, Done);
    var now, done := Served(w, r, Some(after), fate, turn, GitMoved), Served(w, r, Some(after), fate, turn, Done);
    LinkageShows(w.h, e, after, done.h);
    if !Applied(after, e) {
      OnlyOneNoneApplied(now.j, after, e);
      NothingToRestart(now, plans);
      AlikeKeepsAttempts(done.h, w.h);
    }
    hide Confirmed, Prepared, Succeeds, Applied, OnlyApplied, GoodPlan, Served, Restarts;
    hide Pending, Linkage, Alike, HistoryValid, PublicationOf;
  }

  lemma AlikeKeepsAttempts(h: History, g: History)
    ensures Alike(h, g) ==> g.attempts == h.attempts
  {
  }

  lemma OnlyOneNoneApplied(j: Journal, git: Git, e: PendingIntent)
    requires OnlyApplied(j, git, e) && !Applied(git, e)
    ensures NoneApplied(j, git)
  {
    hide Applied;
    assert forall n :: 0 <= n < |j| && Applied(git, j[n]) ==> j[n] == e;
  }

  // A crash before Git moved leaves every publication alone, and the history itself,
  // unless the request named the branch Git was already on.
  lemma CrashBeforeGitMoved(w: World, r: Request, moved: Option<Git>, fate: WriteFate, turn: Turn, at: Progress, plans: seq<nat -> Turn>)
    requires Confirmed(w, r) && (at.Nothing? || at.IntentKept?) && NoneApplied(w.j, w.git)
    requires !(r.action.Branch? && Trim(r.target) == w.git.state.identity.branch)
    ensures Restarts(Served(w, r, moved, fate, turn, at), plans) == Served(w, r, moved, fate, turn, at)
    ensures Served(w, r, moved, fate, turn, at).h == w.h
  {
    PreparedJournal(w, r, fate, w.git);
    NothingToRestart(Served(w, r, moved, fate, turn, at), plans);
  }

  // Otherwise a kept branch intent already looks applied, and a restart links it although
  // Git never moved.
  lemma BranchAlreadyCurrent(w: World, r: Request, moved: Option<Git>, fate: WriteFate, turn: Turn, plan: nat -> Turn)
    requires Confirmed(w, r) && NoneApplied(w.j, w.git)
    requires r.action.Branch? && Trim(r.target) == w.git.state.identity.branch
    requires Prepared(w.h, w.j, r.context, r.Entry(w.git), fate).1.None?
    requires GoodPlan(w.h, r.Entry(w.git), w.git, plan)
    ensures var back := Restarts(Served(w, r, moved, fate, turn, IntentKept), [plan]);
            Alike(Linkage(w.h, r.Entry(w.git), w.git), back.h)
  {
    var e := r.Entry(w.git);
    var kept := Served(w, r, moved, fate, turn, IntentKept);
    PreparedJournal(w, r, fate, w.git);
    NotBlankStays(w.git.state.identity.branch, r.target);
    assert Applied(w.git, e);
    assert Alike(w.h, w.h);
    var plans := [plan];
    assert plans[0] == plan;
    hide HistoryValid, Applied, OnlyApplied, Readable, Prepared, GoodPlan, Restarts;
    hide Linkage, Alike, PendingIntent.WellFormed, PublicationContext.JoinedIn;
    OnlyAppliedFromNone(w.j, w.git, e);
    PreparedJournal(w, r, fate, w.git);
    RestartsSettle(w.h, e, kept, plans);
  }

  lemma OnlyAppliedFromNone(j: Journal, git: Git, e: PendingIntent)
    requires NoneApplied(j, git)
    ensures OnlyApplied(j, git, e)
  {
    hide Applied;
  }

  lemma NotBlankStays(branch: string, target: string)
    requires Trim(target) == branch && !Blank(branch)
    ensures !Blank(Trim(target))
  {
  }

  // Everything RecoveryIsExact asks of a crash between the Git move and the link.
  ghost predicate CrashedBeforeLink(w: World, r: Request, after: Git, fate: WriteFate, turn: Turn, plans: seq<nat -> Turn>) {
    && Confirmed(w, r) && OnlyApplied(w.j, after, r.Entry(w.git))
    && Prepared(w.h, w.j, r.context, r.Entry(w.git), fate).1.None?
    && Succeeds(w.h, r.Entry(w.git), after, turn)
    && (exists x :: 0 <= x < |plans| && GoodPlan(w.h, r.Entry(w.git), after, plans[x]))
    && w.h.attempts[FirstAttempt(w.h.attempts, ById(r.context.taskId, r.context.attemptId))].publication
       != PublicationOf(r.Entry(w.git), after)
  }

  // A commit on the same branch is recovered exactly when it has the old HEAD as its one
  // parent and Git kept the message up to outer space: a merge, a rewritten message or a
  // second commit on top is not.
  lemma CommitRecoveredExactly(w: World, r: Request, after: Git, fate: WriteFate, turn: Turn, plans: seq<nat -> Turn>)
    requires CrashedBeforeLink(w, r, after, fate, turn, plans) && r.action.Commit?
    requires after.state.identity.branch == w.git.state.identity.branch
    requires after.state.identity.headOid != "" && after.state.identity.headOid in after.commits
    ensures var head := after.state.identity.headOid;
            Alike(Served(w, r, Some(after), fate, turn, Done).h, Restarts(Served(w, r, Some(after), fate, turn, GitMoved), plans).h)
            <==> head != w.git.state.identity.headOid
                 && after.commits[head].parents == [w.git.state.identity.headOid]
                 && Trim(after.commits[head].message) == Trim(r.message)
  {
    var head := after.state.identity.headOid;
    assert Applied(after, r.Entry(w.git))
           <==> head != w.git.state.identity.headOid && after.commits[head].parents == [w.git.state.identity.headOid]
                && Trim(after.commits[head].message) == Trim(r.message);
    hide Confirmed, OnlyApplied, Prepared, Succeeds, GoodPlan, PublicationOf, Applied, Alike, Served, Restarts, Trim;
    RecoveryIsExact(w, r, after, fate, turn, plans);
  }

  // A proposal branch is recovered exactly when checking it out kept HEAD: an existing
  // branch taken as the fallback at another HEAD is not.
  lemma BranchRecoveredExactly(w: World, r: Request, after: Git, fate: WriteFate, turn: Turn, plans: seq<nat -> Turn>)
    requires CrashedBeforeLink(w, r, after, fate, turn, plans) && r.action.Branch?
    requires after.state.identity.branch == Trim(r.target) && !Blank(Trim(r.target))
    ensures Alike(Served(w, r, Some(after), fate, turn, Done).h, Restarts(Served(w, r, Some(after), fate, turn, GitMoved), plans).h)
            <==> after.state.identity.headOid == w.git.state.identity.headOid
  {
    assert Applied(after, r.Entry(w.git)) <==> after.state.identity.headOid == w.git.state.identity.headOid;
    hide Confirmed, OnlyApplied, Prepared, Succeeds, GoodPlan, PublicationOf, Applied, Alike, Served, Restarts, Trim;
    RecoveryIsExact(w, r, after, fate, turn, plans);
  }

  // The confirmed commit, made without outside movement: one parent, and a message Git
  // left alone up to outer space.
  predicate CommitMade(w: World, r: Request, after: Git) {
    var head := after.state.identity.headOid;
    && r.action.Commit?
    && after.state.identity.branch == w.git.state.identity.branch
    && head != "" && head != w.git.state.identity.headOid && head in after.commits
    && after.commits[head].parents == [w.git.state.identity.headOid]
    && Trim(after.commits[head].message) == Trim(r.message)
  }

  // The proposal branch, created fresh at the current HEAD.
  predicate BranchMade(w: World, r: Request, after: Git) {
    && r.action.Branch? && !Blank(Trim(r.target))
    && w.git.state.identity.branch != Trim(r.target) == after.state.identity.branch
    && after.state.identity.headOid == w.git.state.identity.headOid
  }

  // Whichever moment the process dies at, restarts bring the history to exactly the
  // uncrashed request's publications if Git had moved, and leave it alone if it had not;
  // no later restart changes a publication again.
  lemma CrashRefinement(
      w: World, r: Request, after: Git, fate: WriteFate, turn: Turn, at: Progress, plan: nat -> Turn, more: seq<nat -> Turn>)
    requires Confirmed(w, r) && (CommitMade(w, r, after) || BranchMade(w, r, after))
    requires NoneApplied(w.j, w.git) && OnlyApplied(w.j, after, r.Entry(w.git))
    requires Prepared(w.h, w.j, r.context, r.Entry(w.git), fate).1.None?
    requires Succeeds(w.h, r.Entry(w.git), after, turn) && GoodPlan(w.h, r.Entry(w.git), after, plan)
    ensures var done := Served(w, r, Some(after), fate, turn, Done);
            var crashed := Served(w, r, Some(after), fate, turn, at);
            if at.Nothing? || at.IntentKept? then Restarts(crashed, [plan] + more).h == w.h
            else Alike(done.h, Restarts(crashed, [plan] + more).h)
  {
    assert Applied(after, r.Entry(w.git));
    var plans := [plan] + more;
    assert plans[0] == plan;
    hide Confirmed, Prepared, Succeeds, Applied, OnlyApplied, NoneApplied, GoodPlan, Served, Restarts, Alike;
    if at.Nothing? || at.IntentKept? {
      CrashBeforeGitMoved(w, r, Some(after), fate, turn, at, plans);
    } else {
      CrashAfterGitMoved(w, r, after, fate, turn, at, plans);
    }
  }

  // ---------------------------------------------------------------- what is published

  // The named task and attempt carry one publication, which says what Git says.
  predicate PublishedOn(h: History, r: Request, p: TaskHistory.Publication) {
    var ti, k := FirstTask(h.tasks, r.context.taskId), FirstAttempt(h.attempts, ById(r.context.taskId, r.context.attemptId));
    && ti < |h.tasks| && k < |h.attempts| && h.tasks[ti].publication == p && h.attempts[k].publication == p
    && p.Linked? && p.attemptId == h.attempts[k].id && p.runId == h.attempts[k].runId && p.action == r.action
  }

  // The commit asked for, on top of the HEAD that was confirmed, with the inventory seen then.
  predicate CommitPublished(h: History, before: GitState, after: Git, r: Request) {
    var k := FirstAttempt(h.attempts, ById(r.context.taskId, r.context.attemptId));
    k < |h.attempts| &&
    var p := h.attempts[k].publication;
    && PublishedOn(h, r, p)
    && p.commit == p.headOid == after.state.identity.headOid
    && p.commit in after.commits && after.commits[p.commit].parents == [before.identity.headOid]
    && Trim(after.commits[p.commit].message) == Trim(r.message)
    && p.branch == before.identity.branch == after.state.identity.branch
    && p.baseRef == before.identity.baseRef && p.baseOid == before.identity.baseOid && p.inventory == before.fingerprint
  }

  // The branch asked for, at the HEAD that was confirmed.
  predicate BranchPublished(h: History, before: GitState, after: Git, r: Request) {
    var k := FirstAttempt(h.attempts, ById(r.context.taskId, r.context.attemptId));
    k < |h.attempts| &&
    var p := h.attempts[k].publication;
    && PublishedOn(h, r, p)
    && p.branch == Trim(r.target) == after.state.identity.branch
    && p.commit == p.headOid == before.identity.headOid == after.state.identity.headOid
    && p.baseRef == before.identity.baseRef && p.baseOid == before.identity.baseOid && p.inventory == before.fingerprint
  }

  lemma LinkageSays(h: History, r: Request, before: Git, after: Git, g: History)
    requires var e := r.Entry(before);
             && e.Context().JoinedIn(h) && Trim(e.attemptId) == e.attemptId && Alike(Linkage(h, e, after), g)
    ensures var k := FirstAttempt(g.attempts, ById(r.context.taskId, r.context.attemptId));
            && k < |g.attempts| && PublishedOn(g, r, g.attempts[k].publication)
            && Says(g.attempts[k].publication, r.Entry(before), after.state.identity)
            && (Applied(after, r.Entry(before)) ==> BorneOut(g.attempts[k].publication, r.Entry(before), after))
  {
    var e := r.Entry(before);
    ProvenIsBorneOut(e, after);
    LinkageJoins(h, e, after);
    AlikeJoins(Linkage(h, e, after), g);
    JoinsCompose(h, Linkage(h, e, after), g);
    JoinsCarry(h, g, e.Context());
    hide PublicationOf, Applied, SameJoins, IsOpaqueId, Trim;
  }

  lemma CommitSays(h: History, r: Request, before: Git, after: Git, k: nat)
    requires r.action.Commit? && k < |h.attempts| && k == FirstAttempt(h.attempts, ById(r.context.taskId, r.context.attemptId))
    requires PublishedOn(h, r, h.attempts[k].publication) && BorneOut(h.attempts[k].publication, r.Entry(before), after)
    ensures CommitPublished(h, before.state, after, r)
  {
    hide PublishedOn, Trim;
  }

  lemma BranchSays(h: History, r: Request, before: Git, after: Git, k: nat)
    requires r.action.Branch? && k < |h.attempts| && k == FirstAttempt(h.attempts, ById(r.context.taskId, r.context.attemptId))
    requires PublishedOn(h, r, h.attempts[k].publication) && BorneOut(h.attempts[k].publication, r.Entry(before), after)
    ensures BranchPublished(h, before.state, after, r)
  {
    hide PublishedOn, Trim;
  }

  // What is published is what Git holds, for the task and the attempt alike: a request that
  // was not interrupted, and one whose process died after Git moved and was restarted any
  // number of times, both publish the confirmed commit or branch.
  lemma PublishedAsMade(
      w: World, r: Request, after: Git, fate: WriteFate, turn: Turn, at: Progress, plan: nat -> Turn, more: seq<nat -> Turn>)
    requires Confirmed(w, r) && (CommitMade(w, r, after) || BranchMade(w, r, after))
    requires NoneApplied(w.j, w.git) && OnlyApplied(w.j, after, r.Entry(w.git))
    requires Prepared(w.h, w.j, r.context, r.Entry(w.git), fate).1.None?
    requires Succeeds(w.h, r.Entry(w.git), after, turn) && GoodPlan(w.h, r.Entry(w.git), after, plan)
    requires at.GitMoved? || at.HistoryLinked? || at.Done?
    ensures var done := Served(w, r, Some(after), fate, turn, Done).h;
            var back := Restarts(Served(w, r, Some(after), fate, turn, at), [plan] + more).h;
            && (r.action.Commit? ==> CommitPublished(done, w.git.state, after, r) && CommitPublished(back, w.git.state, after, r))
            && (r.action.Branch? ==> BranchPublished(done, w.git.state, after, r) && BranchPublished(back, w.git.state, after, r))
  {
    var e := r.Entry(w.git);
    MadeIsApplied(w, r, after, turn);
    hide *;
    ServedIsPending(w, r, after, fate, turn, at);
    ServedIsPending(w, r, after, fate, turn, Done);
    GoodPlanFirst(w.h, e, after, plan, more);
    RestartsSettle(w.h, e, Served(w, r, Some(after), fate, turn, at), [plan] + more);
    var done := Served(w, r, Some(after), fate, turn, Done).h;
    var back := Restarts(Served(w, r, Some(after), fate, turn, at), [plan] + more).h;
    RequestPublished(w.h, r, w.git, after, done);
    RequestPublished(w.h, r, w.git, after, back);
  }

  lemma RequestPublished(h: History, r: Request, before: Git, after: Git, g: History)
    requires var e := r.Entry(before);
             && e.Context().JoinedIn(h) && Trim(e.attemptId) == e.attemptId && Applied(after, e) && Alike(Linkage(h, e, after), g)
    ensures r.action.Commit? ==> CommitPublished(g, before.state, after, r)
    ensures r.action.Branch? ==> BranchPublished(g, before.state, after, r)
  {
    hide *;
    LinkageSays(h, r, before, after, g);
    var k := FirstAttempt(g.attempts, ById(r.context.taskId, r.context.attemptId));
    if r.action.Commit? {
      CommitSays(g, r, before, after, k);
    } else if r.action.Branch? {
      BranchSays(g, r, before, after, k);
    }
  }

  // Whatever Git did, as when it rewrote the message, an uninterrupted request publishes
  // where Git stands afterwards.
  lemma ServedSays(w: World, r: Request, after: Git, fate: WriteFate, turn: Turn)
    requires Confirmed(w, r) && OnlyApplied(w.j, after, r.Entry(w.git))
    requires Prepared(w.h, w.j, r.context, r.Entry(w.git), fate).1.None? && Succeeds(w.h, r.Entry(w.git), after, turn)
    ensures var done := Served(w, r, Some(after), fate, turn, Done).h;
            var k := FirstAttempt(done.attempts, ById(r.context.taskId, r.context.attemptId));
            && k < |done.attempts| && PublishedOn(done, r, done.attempts[k].publication)
            && Says(done.attempts[k].publication, r.Entry(w.git), after.state.identity)
  {
    SucceedsIsJoined(w.h, r.Entry(w.git), after, turn);
    hide *;
    ServedIsPending(w, r, after, fate, turn, Done);
    LinkageSays(w.h, r, w.git, after, Served(w, r, Some(after), fate, turn, Done).h);
  }

  lemma SucceedsIsJoined(h: History, e: PendingIntent, git: Git, turn: Turn)
    requires Succeeds(h, e, git, turn)
    ensures e.Context().JoinedIn(h) && Trim(e.attemptId) == e.attemptId
  {
    hide Trim, IsOpaqueId, PublicationValid;
  }

  lemma MadeIsApplied(w: World, r: Request, after: Git, turn: Turn)
    requires Confirmed(w, r) && (CommitMade(w, r, after) || BranchMade(w, r, after))
    requires Succeeds(w.h, r.Entry(w.git), after, turn)
    ensures var e := r.Entry(w.git); Applied(after, e) && e.Context().JoinedIn(w.h) && Trim(e.attemptId) == e.attemptId
  {
    hide HistoryValid, Trim, IsOpaqueId, PublicationValid;
  }

  lemma GoodPlanFirst(h: History, e: PendingIntent, git: Git, plan: nat -> Turn, more: seq<nat -> Turn>)
    requires GoodPlan(h, e, git, plan)
    ensures exists x :: 0 <= x < |[plan] + more| && GoodPlan(h, e, git, ([plan] + more)[x])
  {
    assert ([plan] + more)[0] == plan;
    hide GoodPlan;
  }

  // ---------------------------------------------------------------- any journal

  // The entry's effect is in the Git state and its exact join is in the history.
  predicate Proves(h: History, git: Git, e: PendingIntent) {
    Applied(git, e) && e.Context().JoinedIn(h)
  }

  predicate TaskLinkedBy(h: History, g: History, ti: nat, git: Git, e: PendingIntent)
    requires ti < |h.tasks| && ti < |g.tasks|
  {
    && Proves(h, git, e) && FirstTask(h.tasks, e.taskId) == ti
    && BorneOut(g.tasks[ti].publication, e, git)
    && g.tasks[ti] == h.tasks[ti].(publication := g.tasks[ti].publication, lastActivityAt := g.tasks[ti].lastActivityAt)
  }

  predicate AttemptLinkedBy(h: History, g: History, k: nat, git: Git, e: PendingIntent)
    requires k < |h.attempts| && k < |g.attempts|
  {
    && Proves(h, git, e) && FirstAttempt(h.attempts, ById(e.taskId, e.attemptId)) == k
    && BorneOut(g.attempts[k].publication, e, git)
    && g.attempts[k] == h.attempts[k].(publication := g.attempts[k].publication)
  }

  // Every task and attempt is untouched, or carries the publication of a proven entry naming it.
  ghost predicate OnlyProvenLinks(h: History, g: History, read: Journal, git: Git) {
    && |g.tasks| == |h.tasks| && |g.attempts| == |h.attempts|
    && (forall ti {:trigger g.tasks[ti]} :: 0 <= ti < |h.tasks| ==>
          g.tasks[ti] == h.tasks[ti] || exists n :: 0 <= n < |read| && TaskLinkedBy(h, g, ti, git, read[n]))
    && (forall k {:trigger g.attempts[k]} :: 0 <= k < |h.attempts| ==>
          g.attempts[k] == h.attempts[k] || exists n :: 0 <= n < |read| && AttemptLinkedBy(h, g, k, git, read[n]))
  }

  lemma ProvenLinksKeepJoins(h: History, g: History, read: Journal, git: Git)
    requires OnlyProvenLinks(h, g, read, git)
    ensures SameJoins(h, g)
  {
    hide Proves, BorneOut;
    forall ti | 0 <= ti < |h.tasks|
      ensures h.tasks[ti].(publication := g.tasks[ti].publication, lastActivityAt := g.tasks[ti].lastActivityAt) == g.tasks[ti]
    {
      if g.tasks[ti] != h.tasks[ti] {
        var n :| 0 <= n < |read| && TaskLinkedBy(h, g, ti, git, read[n]);
      }
    }
    forall k | 0 <= k < |h.attempts|
      ensures g.attempts[k].(publication := h.attempts[k].publication) == h.attempts[k]
    {
      if g.attempts[k] != h.attempts[k] {
        var n :| 0 <= n < |read| && AttemptLinkedBy(h, g, k, git, read[n]);
      }
    }
  }

  lemma LinkWrites(g: History, e: PendingIntent, git: Git, now: Time, persisted: bool)
    requires Accepted(g, LinkOf(e, git, now), persisted)
    ensures e.Context().JoinedIn(g) && e.Context().taskId == e.taskId && e.Context().attemptId == e.attemptId
    ensures var f := Publish(g, LinkOf(e, git, now), persisted);
            var ti, k := FirstTask(g.tasks, e.taskId), FirstAttempt(g.attempts, ById(e.taskId, e.attemptId));
            && ti < |g.tasks| && k < |g.attempts|
            && f.tasks == g.tasks[ti := g.tasks[ti].(publication := PublicationOf(e, git), lastActivityAt := now)]
            && f.attempts == g.attempts[k := g.attempts[k].(publication := PublicationOf(e, git))]
  {
    hide HistoryValid, PublicationOf, PublicationContext.ShapeValid, Trim, IsOpaqueId;
  }

  lemma LinkProves(h: History, git: Git, e: PendingIntent)
    requires Applied(git, e) && e.Context().JoinedIn(h)
    ensures Proves(h, git, e)
  {
  }

  lemma MoreTaskLinks(h: History, g: History, f: History, read: Journal, git: Git, n: nat, now: Time)
    requires OnlyProvenLinks(h, g, read, git) && SameJoins(h, g) && n < |read| && Proves(h, git, read[n])
    requires BorneOut(PublicationOf(read[n], git), read[n], git)
    requires var ti := FirstTask(h.tasks, read[n].taskId);
             ti < |g.tasks|
             && f.tasks == g.tasks[ti := g.tasks[ti].(publication := PublicationOf(read[n], git), lastActivityAt := now)]
    ensures |f.tasks| == |h.tasks|
    ensures forall ti :: 0 <= ti < |h.tasks| ==>
              f.tasks[ti] == h.tasks[ti] || exists m :: 0 <= m < |read| && TaskLinkedBy(h, f, ti, git, read[m])
  {
    hide Proves, PublicationOf, BorneOut, FirstTask;
    forall ti | 0 <= ti < |h.tasks|
      ensures f.tasks[ti] == h.tasks[ti] || exists m :: 0 <= m < |read| && TaskLinkedBy(h, f, ti, git, read[m])
    {
      if ti == FirstTask(h.tasks, read[n].taskId) {
        assert TaskLinkedBy(h, f, ti, git, read[n]);
      } else if g.tasks[ti] != h.tasks[ti] {
        var m :| 0 <= m < |read| && TaskLinkedBy(h, g, ti, git, read[m]);
        assert TaskLinkedBy(h, f, ti, git, read[m]);
      }
    }
  }

  lemma MoreAttemptLinks(h: History, g: History, f: History, read: Journal, git: Git, n: nat)
    requires OnlyProvenLinks(h, g, read, git) && SameJoins(h, g) && n < |read| && Proves(h, git, read[n])
    requires BorneOut(PublicationOf(read[n], git), read[n], git)
    requires var k := FirstAttempt(h.attempts, ById(read[n].taskId, read[n].attemptId));
             k < |g.attempts| && f.attempts == g.attempts[k := g.attempts[k].(publication := PublicationOf(read[n], git))]
    ensures |f.attempts| == |h.attempts|
    ensures forall k :: 0 <= k < |h.attempts| ==>
              f.attempts[k] == h.attempts[k] || exists m :: 0 <= m < |read| && AttemptLinkedBy(h, f, k, git, read[m])
  {
    hide Proves, PublicationOf, BorneOut, FirstAttempt;
    forall k | 0 <= k < |h.attempts|
      ensures f.attempts[k] == h.attempts[k] || exists m :: 0 <= m < |read| && AttemptLinkedBy(h, f, k, git, read[m])
    {
      if k == FirstAttempt(h.attempts, ById(read[n].taskId, read[n].attemptId)) {
        assert AttemptLinkedBy(h, f, k, git, read[n]);
      } else if g.attempts[k] != h.attempts[k] {
        var m :| 0 <= m < |read| && AttemptLinkedBy(h, g, k, git, read[m]);
        assert AttemptLinkedBy(h, f, k, git, read[m]);
      }
    }
  }

  lemma ProvenLinks(h: History, f: History, read: Journal, git: Git)
    requires |f.tasks| == |h.tasks| && |f.attempts| == |h.attempts|
    requires forall ti :: 0 <= ti < |h.tasks| ==>
               f.tasks[ti] == h.tasks[ti] || exists m :: 0 <= m < |read| && TaskLinkedBy(h, f, ti, git, read[m])
    requires forall k :: 0 <= k < |h.attempts| ==>
               f.attempts[k] == h.attempts[k] || exists m :: 0 <= m < |read| && AttemptLinkedBy(h, f, k, git, read[m])
    ensures OnlyProvenLinks(h, f, read, git)
  {
    hide TaskLinkedBy, AttemptLinkedBy;
  }

  lemma LinkIsProven(h: History, g: History, read: Journal, git: Git, n: nat, now: Time, persisted: bool)
    requires OnlyProvenLinks(h, g, read, git) && n < |read| && Applied(git, read[n])
    requires Accepted(g, LinkOf(read[n], git, now), persisted)
    ensures OnlyProvenLinks(h, Publish(g, LinkOf(read[n], git, now), persisted), read, git)
  {
    hide *;
    var e, f := read[n], Publish(g, LinkOf(read[n], git, now), persisted);
    ProvenLinksKeepJoins(h, g, read, git);
    LinkWrites(g, e, git, now, persisted);
    JoinsCarry(h, g, e.Context());
    LinkProves(h, git, e);
    ProvenIsBorneOut(e, git);
    MoreTaskLinks(h, g, f, read, git, n, now);
    MoreAttemptLinks(h, g, f, read, git, n);
    ProvenLinks(h, f, read, git);
  }

  lemma {:induction false} ReconciledIsProven(
      h: History, g: History, j: Journal, read: Journal, git: Git, turns: nat -> Turn, i: nat)
    requires i <= |read| && OnlyProvenLinks(h, g, read, git)
    ensures OnlyProvenLinks(h, Reconciled(g, j, read, git, turns, i).0, read, git)
    decreases |read| - i
  {
    hide OnlyProvenLinks, Applied, Accepted, Cleared, PublicationContext.ShapeValid;
    if i < |read| {
      if !turns(i).observed || !Applied(git, read[i]) {
        ReconciledIsProven(h, g, j, read, git, turns, i + 1);
      } else {
        var e := read[i];
        if Accepted(g, LinkOf(e, git, turns(i).now), turns(i).persisted) {
          LinkIsProven(h, g, read, git, i, turns(i).now, turns(i).persisted);
        }
        var tried := Attempted(g, j, git, e, turns(i));
        if tried.2.Some? {
          ReconciledIsProven(h, tried.0, tried.1, read, git, turns, i + 1);
        }
      }
    }
  }

  // Reconciliation is fail-closed for any journal, Git state and failures: it invents no
  // publication, and touches nothing but publications and activity times.
  lemma RestartIsFailClosed(h: History, j: Journal, git: Git, turns: nat -> Turn)
    ensures OnlyProvenLinks(h, Restarted(h, j, git, turns).0, j, git)
    ensures Within(Restarted(h, j, git, turns).1, j)
  {
    ReconciledIsProven(h, h, j, j, git, turns, 0);
    ReconciledWithin(h, j, j, git, turns, 0);
  }

  // ---------------------------------------------------------------- one link a restart

  // Entry i can be linked at its turn.
  predicate Eligible(h: History, read: Journal, git: Git, turns: nat -> Turn, i: nat)
    requires i < |read|
  {
    turns(i).observed && Applied(git, read[i]) && Accepted(h, LinkOf(read[i], git, turns(i).now), turns(i).persisted)
  }

  // While journal writes succeed, a restart links exactly the first entry that can be
  // linked, drops that context's entries for that action, and does nothing else.
  lemma {:induction false} FirstEligibleIsLinked(h: History, j: Journal, git: Git, turns: nat -> Turn, i: nat, n: nat)
    requires Readable(j) && i <= n <= |j|
    requires forall m :: i <= m < |j| ==> turns(m).write.Written?
    requires forall m :: i <= m < n ==> !Eligible(h, j, git, turns, m)
    requires n < |j| ==> Eligible(h, j, git, turns, n)
    ensures Reconciled(h, j, j, git, turns, i)
            == if n == |j| then (h, j)
               else (Publish(h, LinkOf(j[n], git, turns(n).now), turns(n).persisted),
                     WithoutContext(j, j[n].Context(), j[n].action))
    decreases |j| - i
  {
    hide Applied, Accepted, Publish, PendingIntent.WellFormed, PublicationContext.ShapeValid;
    if i < |j| {
      var e := j[i];
      assert e.WellFormed();
      ShapeOfWellFormed(e);
      if i < n {
        assert !Eligible(h, j, git, turns, i);
        FirstEligibleIsLinked(h, j, git, turns, i + 1, n);
      } else {
        OthersAreKept(j, e.Context(), e.action, e);
      }
    }
  }

  // What is dropped and what is kept: the rest of the journal stays, in order.
  lemma {:induction false} OthersKeepTheirOrder(j: Journal, k: Journal, context: PublicationContext, action: GitAction)
    ensures WithoutContext(j + k, context, action) == WithoutContext(j, context, action) + WithoutContext(k, context, action)
  {
    hide BelongsTo;
    if k == [] {
      assert j + k == j;
    } else {
      var init := k[..|k| - 1];
      assert (j + k)[..|j + k| - 1] == j + init;
      OthersKeepTheirOrder(j, init, context, action);
    }
  }

  // Two commit intents with the same branch, HEAD and message cannot be told apart: when
  // both could be linked the earlier entry takes the publication and the later attempt,
  // whose commit it may be, is left as it was.
  lemma EarlierTwinWins(h: History, j: Journal, git: Git, turns: nat -> Turn, n: nat, m: nat)
    requires Readable(j) && n < m < |j|
    requires forall x :: 0 <= x < |j| ==> turns(x).write.Written? && turns(x).observed
    requires forall x :: 0 <= x < n ==> !Applied(git, j[x])
    requires j[n].action.Commit? && j[m].action.Commit? && j[n].messageHash == j[m].messageHash
    requires j[n].before.branch == j[m].before.branch && j[n].before.headOid == j[m].before.headOid
    requires Applied(git, j[m]) && Accepted(h, LinkOf(j[n], git, turns(n).now), turns(n).persisted)
    requires j[n].attemptId != j[m].attemptId
    ensures var g := Restarted(h, j, git, turns).0;
            var a := FirstAttempt(h.attempts, ById(j[n].taskId, j[n].attemptId));
            var b := FirstAttempt(h.attempts, ById(j[m].taskId, j[m].attemptId));
            && a < |g.attempts| && BorneOut(g.attempts[a].publication, j[n], git)
            && (b < |h.attempts| ==> b < |g.attempts| && g.attempts[b] == h.attempts[b])
  {
    assert Applied(git, j[n]);
    hide Applied, Accepted, Publish, Readable, PublicationOf, BorneOut;
    assert forall x :: 0 <= x < n ==> !Eligible(h, j, git, turns, x);
    assert Eligible(h, j, git, turns, n);
    FirstEligibleIsLinked(h, j, git, turns, 0, n);
    ProvenIsBorneOut(j[n], git);
    LinkTouchesOne(h, j[n], git, turns(n).now, turns(n).persisted, j[m].taskId, j[m].attemptId);
  }

  lemma LinkTouchesOne(h: History, e: PendingIntent, git: Git, now: Time, persisted: bool, taskId: Id, attemptId: Id)
    requires Accepted(h, LinkOf(e, git, now), persisted) && e.attemptId != attemptId
    ensures var g := Publish(h, LinkOf(e, git, now), persisted);
            var a, b := FirstAttempt(h.attempts, ById(e.taskId, e.attemptId)), FirstAttempt(h.attempts, ById(taskId, attemptId));
            && a < |g.attempts| && g.attempts[a].publication == PublicationOf(e, git)
            && (b < |h.attempts| ==> b < |g.attempts| && g.attempts[b] == h.attempts[b])
  {
    hide HistoryValid, PublicationContext.ShapeValid, PublicationOf;
  }

  // ---------------------------------------------------------------- an unreadable journal

  datatype JournalStep =
    | Preparing(h: History, context: PublicationContext, intent: PendingIntent, fate: WriteFate)
    | Clearing(context: PublicationContext, action: GitAction, fate: WriteFate)
    | Recording(h: History, context: PublicationContext, publication: TaskHistory.Publication, turn: Turn)
    | Restarting(h: History, git: Git, turns: nat -> Turn)

  function JournalAfter(j: Journal, steps: seq<JournalStep>): Journal {
    if steps == [] then j
    else
      var k := JournalAfter(j, steps[..|steps| - 1]);
      match steps[|steps| - 1]
      case Preparing(h, context, intent, fate) => Prepared(h, k, context, intent, fate).0
      case Clearing(context, action, fate) => Cleared(k, context, action, fate).0
      case Recording(h, context, p, turn) => Recorded(h, k, context, p, turn).1
      case Restarting(h, git, turns) => Restarted(h, k, git, turns).1
  }

  // Preparing does not check what reading demands: on a state whose HEAD is blank, as in a
  // repository without commits, it writes a journal that cannot be read back.
  lemma PrepareKeepsReadable(
      h: History, j: Journal, context: PublicationContext, action: GitAction, target: string, message: string,
      state: GitState)
    requires Readable(j) && context.JoinedIn(h) && context.Provided()
    requires (action.Commit? || action.Branch?) && state.fingerprint.Sha256? && !Blank(state.identity.branch)
    ensures Readable(Prepared(h, j, context, IntentFor(context, action, target, message, state), Written).0)
            <==> !Blank(state.identity.headOid)
  {
    var e := IntentFor(context, action, target, message, state);
    assert e.WellFormed() <==> !Blank(state.identity.headOid);
    hide PendingIntent.WellFormed, IsOpaqueId;
    if e in j {
      assert e.WellFormed();
    } else {
      assert (j + [e])[|j|] == e;
      assert Readable(j + [e]) ==> (j + [e])[|j|].WellFormed();
    }
  }

  // No operation ever repairs an unreadable journal, and while it lasts every request
  // with a context is refused before Git moves.
  lemma {:induction false} UnreadableForGood(j: Journal, steps: seq<JournalStep>)
    requires !Readable(j)
    ensures JournalAfter(j, steps) == j
    ensures forall h, git, r: Request, moved, fate, turn, at :: r.context.Provided() ==>
              Served(World(h, JournalAfter(j, steps), git), r, moved, fate, turn, at) == World(h, j, git)
  {
    hide Readable, PublicationContext.ShapeValid, PublicationContext.JoinedIn, PublicationContext.Provided, Accepted;
    if steps != [] {
      UnreadableForGood(j, steps[..|steps| - 1]);
    }
  }
}
