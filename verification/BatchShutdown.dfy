/** Shutdown: it gets the write lock, because readers only drain while it waits, and goes on to its end. */
module BatchShutdown {
  import opened BatchProcessor
  import opened BatchFlow
  import opened BatchRuns
  import opened BatchProgress

  /** The steps a call needs at most to give up the read lock. */
  function ReaderSteps(call: Call): nat {
    if call.phase.Locked? then 2 else if call.phase.Checked? then 1 else 0
  }

  function ReadersLeft(calls: seq<Call>): nat {
    if calls == [] then 0 else ReadersLeft(calls[..|calls| - 1]) + ReaderSteps(calls[|calls| - 1])
  }

  lemma {:induction false} ReadersLeftUpdate(calls: seq<Call>, c: nat, call: Call)
    requires c < |calls|
    ensures ReadersLeft(calls[c := call]) == ReadersLeft(calls) - ReaderSteps(calls[c]) + ReaderSteps(call)
  {
    var n := |calls| - 1;
    if c == n {
      assert calls[c := call][..n] == calls[..n];
    } else {
      assert calls[c := call][..n] == calls[..n][c := call];
      ReadersLeftUpdate(calls[..n], c, call);
    }
  }

  lemma {:induction false} ReadersLeftIff(calls: seq<Call>)
    ensures ReadersLeft(calls) > 0 <==> AnyReader(calls)
    ensures ReadersLeft(calls) <= 2 * |calls|
  {
    if calls != [] {
      var n := |calls| - 1;
      ReadersLeftIff(calls[..n]);
      if AnyReader(calls[..n]) {
        var c :| 0 <= c < n && calls[..n][c].HoldsReadLock();
        assert calls[c].HoldsReadLock();
      }
      if AnyReader(calls) && !calls[n].HoldsReadLock() {
        var c :| 0 <= c < |calls| && calls[c].HoldsReadLock();
        assert calls[..n][c].HoldsReadLock();
      }
    }
  }

  /** The step of a call that holds the read lock. */
  predicate ReaderStep(s: State, a: Action) {
    a.CallStep? && a.c < |s.calls| && s.calls[a.c].HoldsReadLock()
  }

  lemma CallStepDrains(cfg: Config, s: State, c: nat)
    requires s.gate.closer.LockWanted? && c < |s.calls| && StepCall(cfg, s, c).Moves?
    ensures var calls := StepCall(cfg, s, c).next.calls;
      ReadersLeft(calls) + (if s.calls[c].HoldsReadLock() then 1 else 0) <= ReadersLeft(s.calls)
  {
    ReadersLeftUpdate(s.calls, c, StepCall(cfg, s, c).next.calls[c]);
  }

  /** While the write lock is wanted, a step of a reader brings it closer, and no step sets it back. */
  lemma StepDrains(cfg: Config, s: State, a: Action)
    requires s.gate.closer.LockWanted? && Next(cfg, s, a).Moves?
    ensures ReadersLeft(Next(cfg, s, a).next.calls) + (if ReaderStep(s, a) then 1 else 0) <= ReadersLeft(s.calls)
  {
    match a {
      case NewCall(_) => assert Next(cfg, s, a).next.calls[..|s.calls|] == s.calls;
      case CallStep(c) => CallStepDrains(cfg, s, c);
      case CallGivesUp(c) => ReadersLeftUpdate(s.calls, c, Next(cfg, s, a).next.calls[c]);
      case WorkerStep(w, ok) =>
        hide StepWorker;
        WorkerStepLives(cfg, s, w, ok);
      case _ =>
    }
  }

  /** Any steps of the system during which shutdown waits for the write lock. */
  ghost predicate WhileWanted(cfg: Config, states: seq<State>, actions: seq<Action>) {
    && |states| == |actions| + 1
    && (forall i :: 0 <= i < |states| ==> states[i].gate.closer.LockWanted?)
    && forall i :: 0 <= i < |actions| ==> Next(cfg, states[i], actions[i]) == Moves(states[i + 1])
  }

  function ReaderStepsTaken(states: seq<State>, actions: seq<Action>, n: nat): nat
    requires n <= |actions| < |states|
  {
    if n == 0 then 0 else ReaderStepsTaken(states, actions, n - 1) + if ReaderStep(states[n - 1], actions[n - 1]) then 1 else 0
  }

  lemma {:induction false} WaitDrains(cfg: Config, states: seq<State>, actions: seq<Action>, n: nat)
    requires WhileWanted(cfg, states, actions) && Reachable(cfg, states[0]) && n <= |actions|
    ensures Reachable(cfg, states[n])
    ensures ReadersLeft(states[n].calls) + ReaderStepsTaken(states, actions, n) <= ReadersLeft(states[0].calls)
  {
    if n > 0 {
      hide Next, ReadersLeft, ReaderStep, Reachable;
      var j := n - 1;
      WaitDrains(cfg, states, actions, j);
      assert Next(cfg, states[j], actions[j]) == Moves(states[j + 1]);
      ReachableStep(cfg, states[j], actions[j]);
      StepDrains(cfg, states[j], actions[j]);
    }
  }

  lemma LockGranted(cfg: Config, s: State)
    requires s.gate.closer.LockWanted? && !AnyReader(s.calls)
    ensures Next(cfg, s, CloserStep).Moves? && Next(cfg, s, CloserStep).next.gate.closer.LockHeld?
  {
  }

  /** Whatever else happens while shutdown waits for the write lock, new calls included, readers take at
      most two steps for each call there was, one of them can always go on, and when none is left the
      lock is granted. */
  lemma LockIsGranted(cfg: Config, states: seq<State>, actions: seq<Action>)
    requires cfg.Valid() && WhileWanted(cfg, states, actions) && Reachable(cfg, states[0])
    ensures ReaderStepsTaken(states, actions, |actions|) <= 2 * |states[0].calls|
    ensures var s := states[|actions|];
      || (exists c: nat :: c < |s.calls| && s.calls[c].HoldsReadLock() && Next(cfg, s, CallStep(c)).Moves?)
      || (Next(cfg, s, CloserStep).Moves? && Next(cfg, s, CloserStep).next.gate.closer.LockHeld?)
  {
    hide ReadersLeft, ReaderStepsTaken, Reachable, Next;
    var s := states[|actions|];
    WaitDrains(cfg, states, actions, |actions|);
    ReadersLeftIff(states[0].calls);
    if AnyReader(s.calls) {
      var c: nat :| c < |s.calls| && s.calls[c].HoldsReadLock();
      ReaderMoves(cfg, s, c);
    } else {
      LockGranted(cfg, s);
    }
  }

  // ----- The shutdown goroutine -----

  /** How many steps shutdown has left. */
  function ShutdownSteps(closer: Closer): nat {
    match closer
    case Running => 8
    case StopClosed => 7
    case LockWanted => 6
    case LockHeld => 5
    case QueueClosed => 4
    case Joining => 3
    case Joined(_) => 2
    case TimerStopped(_) => 1
    case ExporterDown(_) => 0
  }

  /** Shutdown is held up only by readers of the lock and by goroutines that were started and have not ended;
      every step brings it nearer to its end: the stop channel closed, then under the lock the queue, then the
      timer stopped, then the exporter down, where it stays. */
  lemma ShutdownMovesIff(cfg: Config, s: State)
    requires cfg.Valid() && Reachable(cfg, s)
    ensures Next(cfg, s, CloserStep).Moves? <==>
              && !s.gate.closer.ExporterDown?
              && (s.gate.closer.LockWanted? ==> !AnyReader(s.calls))
              && (s.gate.closer.Joining? && s.intake.Started() ==> AllExited(s.intake, s.crew))
    ensures Next(cfg, s, CloserStep).Moves? ==>
              var s' := Next(cfg, s, CloserStep).next;
              && ShutdownSteps(s'.gate.closer) == ShutdownSteps(s.gate.closer) - 1
              && s'.gate.stopClosed && (s'.gate.queueClosed <==> ShutdownSteps(s'.gate.closer) <= 4)
              && s'.calls == s.calls && s'.intake == s.intake && s'.crew == s.crew && s'.answers == s.answers
              && s'.timer == if s'.gate.closer.TimerStopped? then Stopped else s.timer
  {
    hide Flow, ReadersOk, CrewOk, AnyReader, AllExited;
    ReachableIsControlled(cfg, s);
  }
}
