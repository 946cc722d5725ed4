// The watcher gate: admissions add watchers to a wait group until the gate closes, and
// serialized shutdown calls close it, let the watchers finish and wait for the last one.
module ShutdownGate {
  import opened Wrappers

  // A watcher goroutine, from the group's Add to its Done.
  datatype Watcher = Spawned | Looping | Leaving

  // One call of Shutdown. `cancel` says whether it took the lifecycle cancel function.
  datatype Call =
    | Asked
    | Locked
    | GateClosed(cancel: bool)
    | Grace(cancel: bool)
    | Waiting
    | Returned
  {
    predicate HoldsLock() { !Asked? && !Returned? }

    predicate PastGate() { !Asked? && !Locked? }
  }

  datatype State = State(
    closed: bool, cancelHeld: bool, canceled: bool, counter: int,
    watchers: map<nat, Watcher>, calls: map<nat, Call>, holder: Option<nat>)

  datatype Step =
    | Admit(w: nat)                   // watchAdmittedAttempt's critical section
    | Begin(w: nat)
    | Leave(w: nat)                   // the loop ends, by mirroring, error or cancellation
    | Finish(w: nat)                  // the deferred Done
    | Ask(c: nat)
    | Lock(c: nat)
    | Close(c: nat)                   // the gate's critical section
    | NoService(c: nat)
    | ServiceStopped(c: nat)
    | GraceOver(c: nat)               // the watchers are done or the timer fired
    | Return(c: nat)                  // the final Wait returns


  function Next(s: State, step: Step): Option<State> {
    match step
    case Admit(w) =>
      if w in s.watchers then None
      else if s.closed then Some(s)
      else Some(s.(counter := s.counter + 1, watchers := s.watchers[w := Spawned]))
    case Begin(w) =>
      if w in s.watchers && s.watchers[w].Spawned? then Some(s.(watchers := s.watchers[w := Looping])) else None
    case Leave(w) =>
      if w in s.watchers && s.watchers[w].Looping? then Some(s.(watchers := s.watchers[w := Leaving])) else None
    case Finish(w) =>
      if w in s.watchers && s.watchers[w].Leaving? then Some(s.(counter := s.counter - 1, watchers := s.watchers - {w})) else None
    case Ask(c) => if c in s.calls then None else Some(s.(calls := s.calls[c := Asked]))
    case Lock(c) =>
      if c in s.calls && s.calls[c].Asked? && s.holder.None? then Some(s.(calls := s.calls[c := Locked], holder := Some(c))) else None
    case Close(c) =>
      if c in s.calls && s.calls[c].Locked?
      then Some(s.(closed := true, cancelHeld := false, calls := s.calls[c := GateClosed(s.cancelHeld)])) else None
    case NoService(c) =>
      if c in s.calls && s.calls[c].GateClosed?
      then Some(s.(canceled := s.canceled || s.calls[c].cancel, calls := s.calls[c := Waiting])) else None
    case ServiceStopped(c) =>
      if c in s.calls && s.calls[c].GateClosed? then Some(s.(calls := s.calls[c := Grace(s.calls[c].cancel)])) else None
    case GraceOver(c) =>
      if c in s.calls && s.calls[c].Grace?
      then Some(s.(canceled := s.canceled || s.calls[c].cancel, calls := s.calls[c := Waiting])) else None
    case Return(c) =>
      if c in s.calls && s.calls[c].Waiting? && s.counter == 0 then Some(s.(calls := s.calls[c := Returned], holder := None)) else None
  }

  const START := State(false, true, false, 0, map[], map[], None)

  function After(steps: seq<Step>): Option<State> {
    if steps == [] then Some(START)
    else
      var s := After(steps[..|steps| - 1]);
      if s.None? then None else Next(s.value, steps[|steps| - 1])
  }

  // ---------------------------------------------------------------- what every step keeps

  ghost predicate LockOk(s: State) {
    && (s.holder.Some? ==> s.holder.value in s.calls && s.calls[s.holder.value].HoldsLock())
    && (forall c :: c in s.calls && s.calls[c].HoldsLock() ==> s.holder == Some(c))
  }

  // The cancel function is in the server, with the call that holds the lock, or spent.
  ghost predicate CancelOk(s: State) {
    && (s.cancelHeld <==> !s.closed)
    && (s.cancelHeld ==> !s.canceled)
    && (s.closed && !s.canceled ==>
          s.holder.Some? && s.holder.value in s.calls
          && var h := s.calls[s.holder.value];
             (h.GateClosed? || h.Grace?) && h.cancel)
  }

  ghost predicate Valid(s: State) {
    && s.counter == |s.watchers|
    && LockOk(s) && CancelOk(s)
    && (forall c :: c in s.calls && s.calls[c].PastGate() ==> s.closed)
    && (forall c :: c in s.calls && s.calls[c].Returned? ==> s.watchers == map[])
  }

  lemma StepKeepsValid(s: State, step: Step)
    requires Valid(s) && Next(s, step).Some?
    ensures Valid(Next(s, step).value)
  {
    ValidIs(s);
    hide *;
    WatchersCounted(s, step);
    LockKept(s, step);
    CancelKept(s, step);
    CallsKept(s, step);
    IsValid(Next(s, step).value);
  }

  lemma ValidIs(s: State)
    requires Valid(s)
    ensures s.counter == |s.watchers| && LockOk(s) && CancelOk(s)
    ensures forall c :: c in s.calls && s.calls[c].PastGate() ==> s.closed
    ensures forall c :: c in s.calls && s.calls[c].Returned? ==> s.watchers == map[]
  {
    hide LockOk, CancelOk;
  }

  lemma IsValid(s: State)
    requires s.counter == |s.watchers| && LockOk(s) && CancelOk(s)
    requires forall c :: c in s.calls && s.calls[c].PastGate() ==> s.closed
    requires forall c :: c in s.calls && s.calls[c].Returned? ==> s.watchers == map[]
    ensures Valid(s)
  {
    hide LockOk, CancelOk;
  }

  lemma CallsKept(s: State, step: Step)
    requires s.counter == |s.watchers| && Next(s, step).Some?
    requires forall c :: c in s.calls && s.calls[c].PastGate() ==> s.closed
    requires forall c :: c in s.calls && s.calls[c].Returned? ==> s.watchers == map[]
    ensures var t := Next(s, step).value;
            && (forall c :: c in t.calls && t.calls[c].PastGate() ==> t.closed)
            && (forall c :: c in t.calls && t.calls[c].Returned? ==> t.watchers == map[])
  {
  }

  lemma LockKept(s: State, step: Step)
    requires LockOk(s) && Next(s, step).Some?
    ensures LockOk(Next(s, step).value)
  {
  }

  lemma CancelKept(s: State, step: Step)
    requires LockOk(s) && CancelOk(s) && Next(s, step).Some?
    requires forall c :: c in s.calls && s.calls[c].PastGate() ==> s.closed
    ensures CancelOk(Next(s, step).value)
  {
  }

  lemma WatchersCounted(s: State, step: Step)
    requires s.counter == |s.watchers| && Next(s, step).Some?
    ensures Next(s, step).value.counter == |Next(s, step).value.watchers|
  {
    if step.Finish? {
      FinishCounted(s, step.w);
    } else if step.Admit? {
      AdmitCounted(s, step.w);
    } else {
      OthersCounted(s, step);
    }
  }

  lemma AdmitCounted(s: State, w: nat)
    requires s.counter == |s.watchers| && Next(s, Admit(w)).Some?
    ensures Next(s, Admit(w)).value.counter == |Next(s, Admit(w)).value.watchers|
  {
    if !s.closed {
      Added(s.watchers, w, Spawned);
    }
  }

  lemma FinishCounted(s: State, w: nat)
    requires s.counter == |s.watchers| && Next(s, Finish(w)).Some?
    ensures Next(s, Finish(w)).value.counter == |Next(s, Finish(w)).value.watchers|
  {
    Dropped(s.watchers, w);
  }

  lemma OthersCounted(s: State, step: Step)
    requires s.counter == |s.watchers| && Next(s, step).Some? && !step.Admit? && !step.Finish?
    ensures Next(s, step).value.counter == |Next(s, step).value.watchers|
  {
    if step.Begin? {
      Changed(s.watchers, step.w, Looping);
    } else if step.Leave? {
      Changed(s.watchers, step.w, Leaving);
    }
  }

  lemma Added(m: map<nat, Watcher>, w: nat, v: Watcher)
    requires w !in m
    ensures |m[w := v]| == |m| + 1
  {
    assert m[w := v].Keys == m.Keys + {w};
  }

  lemma Changed(m: map<nat, Watcher>, w: nat, v: Watcher)
    requires w in m
    ensures |m[w := v]| == |m|
  {
    assert m[w := v].Keys == m.Keys;
  }

  lemma Dropped(m: map<nat, Watcher>, w: nat)
    requires w in m
    ensures |m - {w}| == |m| - 1
  {
    assert (m - {w}).Keys == m.Keys - {w};
  }

  lemma {:induction false} RunKeepsValid(steps: seq<Step>)
    requires After(steps).Some?
    ensures Valid(After(steps).value)
  {
    hide Valid, Next;
    if steps == [] {
      StartIsValid();
    } else {
      RunKeepsValid(steps[..|steps| - 1]);
      StepKeepsValid(After(steps[..|steps| - 1]).value, steps[|steps| - 1]);
    }
  }

  lemma StartIsValid()
    ensures Valid(START)
  {
  }

  // ---------------------------------------------------------------- the gate's promises

  // Whatever interleaving of admissions, watchers and repeated shutdowns led here: the wait
  // counter is the number of live watchers, nobody waits on the group while the gate still
  // lets watchers in, and a call that waits for the last time has canceled the watchers.
  lemma GateHolds(steps: seq<Step>, c: nat)
    requires After(steps).Some? && c in After(steps).value.calls
    ensures var s := After(steps).value;
            && s.counter == |s.watchers|
            && (s.calls[c].PastGate() ==> s.closed)
            && (s.calls[c].Waiting? ==> s.canceled)
            && (s.calls[c].Returned? ==> s.watchers == map[])
            && forall d :: d in s.calls && s.calls[d].HoldsLock() && s.calls[c].HoldsLock() ==> c == d
  {
    RunKeepsValid(steps);
  }

  lemma ClosedStays(s: State, step: Step)
    requires s.closed && Next(s, step).Some?
    ensures Next(s, step).value.closed && Next(s, step).value.watchers.Keys <= s.watchers.Keys
  {
  }

  // Once the gate is closed no watcher ever starts, and once a Shutdown has returned none
  // is alive at any later moment, whatever is asked of the server then.
  lemma {:induction false} NoneAfterShutdown(steps: seq<Step>, n: nat, c: nat)
    requires After(steps).Some? && n <= |steps| && After(steps[..n]).Some?
    ensures After(steps[..n]).value.closed ==>
              After(steps).value.closed && After(steps).value.watchers.Keys <= After(steps[..n]).value.watchers.Keys
    ensures c in After(steps[..n]).value.calls && After(steps[..n]).value.calls[c].Returned? ==> After(steps).value.watchers == map[]
    decreases |steps|
  {
    RunKeepsValid(steps[..n]);
    var m := After(steps[..n]).value;
    assert c in m.calls && m.calls[c].Returned? ==> m.closed && m.watchers == map[];
    hide Next, Valid;
    if n == |steps| {
      assert steps[..n] == steps;
    } else {
      var init := steps[..|steps| - 1];
      assert init[..n] == steps[..n];
      NoneAfterShutdown(init, n, c);
      if m.closed {
        ClosedStays(After(init).value, steps[|steps| - 1]);
      }
    }
  }

  // ---------------------------------------------------------------- the server's fields

  // The lock-protected sections, on the server's own fields.
  class Server {
    var attemptWatchClosed: bool
    var attemptWatchCancel: bool    // the cancel function has not been taken yet
    var canceled: bool              // the watchers' context is done
    var attemptWatchGroup: int

    constructor ()
      ensures !attemptWatchClosed && attemptWatchCancel && !canceled && attemptWatchGroup == 0
    {
      attemptWatchClosed, attemptWatchCancel, canceled, attemptWatchGroup := false, true, false, 0;
    }

    // The server's fields are those of the state.
    ghost predicate Shows(s: State)
      reads this
    {
      s.closed == attemptWatchClosed && s.cancelHeld == attemptWatchCancel && s.canceled == canceled && s.counter == attemptWatchGroup
    }

    // watchAdmittedAttempt, up to `go`
    method Admit(w: nat, ghost s: State) returns (started: bool)
      requires Shows(s) && w !in s.watchers
      modifies this
      ensures Next(s, Step.Admit(w)).Some? && Shows(Next(s, Step.Admit(w)).value)
      ensures started <==> w in Next(s, Step.Admit(w)).value.watchers
    {
      if attemptWatchClosed {
        return false;
      }
      attemptWatchGroup := attemptWatchGroup + 1;
      return true;
    }

    // Shutdown, under attemptWatchMu
    method CloseGate(c: nat, ghost s: State) returns (watchCancel: bool)
      requires Shows(s) && c in s.calls && s.calls[c].Locked?
      modifies this
      ensures Next(s, Step.Close(c)).Some? && Shows(Next(s, Step.Close(c)).value)
      ensures Next(s, Step.Close(c)).value.calls[c] == GateClosed(watchCancel)
    {
      attemptWatchClosed := true;
      watchCancel := attemptWatchCancel;
      attemptWatchCancel := false;
    }

    method CancelWatchers(c: nat, watchCancel: bool, ghost s: State)
      requires Shows(s) && c in s.calls && s.calls[c] == Grace(watchCancel)
      modifies this
      ensures Next(s, GraceOver(c)).Some? && Shows(Next(s, GraceOver(c)).value)
    {
      if watchCancel {
        canceled := true;
      }
    }

    // Shutdown without a service cancels at once.
    method CancelWithoutService(c: nat, watchCancel: bool, ghost s: State)
      requires Shows(s) && c in s.calls && s.calls[c] == GateClosed(watchCancel)
      modifies this
      ensures Next(s, NoService(c)).Some? && Shows(Next(s, NoService(c)).value)
    {
      if watchCancel {
        canceled := true;
      }
    }
  }
}
