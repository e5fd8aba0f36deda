/**
 Progress of the batch processor: the flush timer is never lost, and the builder, the workers and the
 timer always bring every accepted item to the exporter in a bounded number of steps.
 */
module BatchProgress {
  import opened BatchProcessor
  import opened BatchFlow
  import opened BatchCalls
  import opened BatchResults
  import opened BatchWaiters
  import opened BatchRuns
  import opened BatchDelivery

  // ----- The goroutines -----

  /** A processor starts once, with the builder and all its workers. */
  lemma StartRuns(cfg: Config, s: State)
    requires cfg.Valid() && Reachable(cfg, s)
    ensures Next(cfg, s, Start).Moves? <==> s.intake.builder.NotStarted?
    ensures Next(cfg, s, Start).Moves? ==>
              var s' := Next(cfg, s, Start).next;
              && s'.intake == s.intake.(builder := Selecting) && |s'.crew.workers| == cfg.workers
              && (forall w :: 0 <= w < cfg.workers ==> s'.crew.workers[w].Idle?)
              && s'.calls == s.calls && s'.gate == s.gate && s'.timer == s.timer
  {
    hide ReadersOk, CrewOk, GateOk;
    ReachableIsControlled(cfg, s);
  }

  /** The builder's send waits only for room for Workers batches in the batch channel. */
  lemma SendMovesIff(cfg: Config, s: State)
    requires cfg.Valid() && Reachable(cfg, s) && (s.intake.builder.Sending? || s.intake.builder.SendingLast?)
    ensures Next(cfg, s, BuilderProceed).Moves? <==> |s.crew.batchCh| < cfg.workers
  {
    hide ReadersOk, GateOk;
    ReachableIsControlled(cfg, s);
  }

  /** The exporter's answer for a batch is what its worker goes on with, for all of the batch's items. */
  lemma AnswerIsTheExporters(cfg: Config, s: State, w: nat, ok: bool)
    requires w < |s.crew.workers| && s.crew.workers[w].Exporting?
    ensures Next(cfg, s, WorkerStep(w, ok)).Moves?
    ensures var s' := Next(cfg, s, WorkerStep(w, ok)).next;
      var p := s.crew.workers[w].parcel;
      s'.answers.outcome == s.answers.outcome[p.ticket := ok] && s'.crew.workers[w] == Signalling(p, 0, ok, false)
  {
  }

  // ----- The flush timer -----

  ghost predicate SomeoneReceived(workers: seq<Worker>) {
    exists w :: 0 <= w < |workers| && workers[w].Received?
  }

  /** The timer is armed or has fired, or something under way will arm it. */
  ghost predicate TimerLive(s: State) {
    || s.timer.Armed? || s.timer.Fired?
    || s.intake.builder.Sending? || s.intake.builder.Resetting? || s.intake.builder.SendingLast?
    || s.crew.batchCh != []
    || SomeoneReceived(s.crew.workers)
  }

  predicate TimerStoppedForGood(s: State) { s.gate.closer.TimerStopped? || s.gate.closer.ExporterDown? }

  lemma ReceivedKept(workers: seq<Worker>, w: nat, worker: Worker)
    requires w < |workers| && SomeoneReceived(workers) && (workers[w].Received? ==> worker.Received?)
    ensures SomeoneReceived(workers[w := worker])
  {
    var v :| 0 <= v < |workers| && workers[v].Received?;
    assert workers[w := worker][v].Received?;
  }

  lemma TimerWorkerStep(cfg: Config, s: State, w: nat, ok: bool)
    requires TimerLive(s) && w < |s.crew.workers| && StepWorker(cfg, s, w, ok).Moves?
    ensures TimerLive(StepWorker(cfg, s, w, ok).next)
  {
    var s' := StepWorker(cfg, s, w, ok).next;
    if s.crew.workers[w].Idle? && s.crew.batchCh != [] {
      assert s'.crew.workers[w].Received?;
    } else if !s.crew.workers[w].Received? && SomeoneReceived(s.crew.workers) {
      ReceivedKept(s.crew.workers, w, s'.crew.workers[w]);
    }
  }

  /** The timer is live until shutdown stops it, and then, after a wait for a started processor, stays stopped. */
  ghost predicate TimerOk(s: State) {
    if TimerStoppedForGood(s) then s.gate.closer.wasStarted ==> s.timer.Stopped? else TimerLive(s)
  }

  lemma TimerStep(cfg: Config, s: State, a: Action)
    requires Control(cfg, s) && TimerOk(s) && Next(cfg, s, a).Moves?
    ensures TimerOk(Next(cfg, s, a).next)
  {
    match a {
      case WorkerStep(w, ok) => if TimerLive(s) { TimerWorkerStep(cfg, s, w, ok); }
      case _ =>
    }
  }

  lemma {:induction false} TimerOverRuns(cfg: Config, states: seq<State>, actions: seq<Action>, i: nat)
    requires cfg.Valid() && IsRun(cfg, states, actions) && i <= |actions|
    ensures TimerOk(states[i])
  {
    if i > 0 {
      var j := i - 1;
      TimerOverRuns(cfg, states, actions, j);
      RunsAreSound(cfg, states, actions, j);
      assert Next(cfg, states[j], actions[j]) == Moves(states[j + 1]);
      TimerStep(cfg, states[j], actions[j]);
    }
  }

  /** Until shutdown stops it, the flush timer is never lost; once stopped it is never armed again, if
      the processor had been started. */
  lemma TimerIsNeverLost(cfg: Config, s: State)
    requires cfg.Valid() && Reachable(cfg, s)
    ensures !TimerStoppedForGood(s) ==> TimerLive(s)
    ensures TimerStoppedForGood(s) && s.gate.closer.wasStarted ==> s.timer.Stopped?
  {
    var states: seq<State>, actions: seq<Action> :| IsRun(cfg, states, actions) && states[|actions|] == s;
    TimerOverRuns(cfg, states, actions, |actions|);
  }

  // ----- Work left -----

  /** The timer's tick: it fires, the builder takes the fire, and over an empty batch re-arms it. */
  predicate Ticking(s: State, a: Action) {
    a.TimerFires? || a.BuilderTimer? || (a.BuilderProceed? && s.intake.builder.Resetting?)
  }

  /** Every other step of the builder and the workers. */
  predicate Working(s: State, a: Action) {
    a.BuilderQueue? || a.WorkerStep? || (a.BuilderProceed? && !s.intake.builder.Resetting?)
  }

  /** Something accepted was not delivered yet, or a closed queue still has the goroutines running. */
  ghost predicate Busy(s: State) {
    !Quiet(s.intake, s.crew) || (s.gate.queueClosed && !AllExited(s.intake, s.crew))
  }

  /** A working step can be taken, now or after at most n steps of the timer's tick. */
  ghost predicate LeadsToWork(cfg: Config, s: State, n: nat)
    decreases n
  {
    || (exists a :: Working(s, a) && Next(cfg, s, a).Moves?)
    || (n > 0 && exists a :: Ticking(s, a) && Next(cfg, s, a).Moves? && LeadsToWork(cfg, Next(cfg, s, a).next, n - 1))
  }

  lemma WorkNow(cfg: Config, s: State, a: Action, n: nat)
    requires Working(s, a) && Next(cfg, s, a).Moves?
    ensures LeadsToWork(cfg, s, n)
  {
  }

  lemma WorkAfterTick(cfg: Config, s: State, a: Action, n: nat)
    requires Ticking(s, a) && Next(cfg, s, a).Moves? && LeadsToWork(cfg, Next(cfg, s, a).next, n)
    ensures LeadsToWork(cfg, s, n + 1)
  {
  }

  /** A waiting partial batch is sent once the timer's fire is taken. */
  lemma FiredLeadsToWork(cfg: Config, s: State)
    requires cfg.Valid() && Control(cfg, s) && s.intake.builder.Selecting? && s.intake.batch != []
    requires s.crew.batchCh == [] && s.timer.Fired?
    ensures LeadsToWork(cfg, s, 1)
  {
    WorkNow(cfg, Next(cfg, s, BuilderTimer).next, BuilderProceed, 0);
    WorkAfterTick(cfg, s, BuilderTimer, 0);
  }

  lemma BuilderLeadsToWork(cfg: Config, s: State)
    requires cfg.Valid() && Control(cfg, s) && Flow(cfg, s.intake) && TimerOk(s) && s.intake.Started()
    requires s.crew.batchCh == [] && forall w :: 0 <= w < |s.crew.workers| ==> !s.crew.workers[w].HasParcel()
    requires !s.intake.builder.Finished? && Busy(s)
    ensures LeadsToWork(cfg, s, 2)
  {
    if s.intake.builder.Resetting? {
      WorkNow(cfg, Next(cfg, s, BuilderProceed).next, BuilderQueue, 1);
      WorkAfterTick(cfg, s, BuilderProceed, 1);
    } else if !s.intake.builder.Selecting? {
      WorkNow(cfg, s, BuilderProceed, 2);
    } else if s.intake.queue != [] || s.gate.queueClosed {
      WorkNow(cfg, s, BuilderQueue, 2);
    } else if s.timer.Armed? {
      FiredLeadsToWork(cfg, Next(cfg, s, TimerFires).next);
      WorkAfterTick(cfg, s, TimerFires, 1);
    } else {
      assert !SomeoneReceived(s.crew.workers);
      FiredLeadsToWork(cfg, s);
      WorkMonotone(cfg, s, 1);
    }
  }

  lemma {:induction false} WorkMonotone(cfg: Config, s: State, n: nat)
    requires LeadsToWork(cfg, s, n)
    ensures LeadsToWork(cfg, s, n + 1)
    decreases n
  {
    hide Next, Working, Ticking;
    if a :| Working(s, a) && Next(cfg, s, a).Moves? {
    } else {
      var a :| Ticking(s, a) && Next(cfg, s, a).Moves? && LeadsToWork(cfg, Next(cfg, s, a).next, n - 1);
      WorkMonotone(cfg, Next(cfg, s, a).next, n - 1);
    }
  }

  /** A worker that holds a batch, or finds one in the channel, or the channel closed, takes a working step. */
  lemma WorkerWorks(cfg: Config, s: State, w: nat)
    requires LedgerOk(cfg, s) && w < |s.crew.workers|
    requires s.crew.workers[w].HasParcel() || (s.crew.workers[w].Idle? && (s.crew.batchCh != [] || s.crew.closed))
    ensures LeadsToWork(cfg, s, 2)
  {
    hide Ledger, LeadsToWork;
    if s.crew.workers[w].HasParcel() {
      HolderMoves(cfg, s, w, true);
    }
    WorkNow(cfg, s, WorkerStep(w, true), 2);
  }

  lemma BusyLeadsToWork(cfg: Config, s: State)
    requires cfg.Valid() && Reachable(cfg, s) && s.intake.Started() && Busy(s)
    ensures LeadsToWork(cfg, s, 2)
  {
    hide LeadsToWork, Flow, Delivery, Accounted, LedgerOk, WaitingOk, TimerOk, TimerLive;
    ReachableIsSound(cfg, s);
    var workers := s.crew.workers;
    if w :| 0 <= w < |workers| && workers[w].HasParcel() {
      WorkerWorks(cfg, s, w);
    } else if s.crew.batchCh != [] {
      assert workers[0].Idle?;
      WorkerWorks(cfg, s, 0);
    } else if s.intake.builder.Finished? {
      assert s.intake.queue == [] && s.crew.closed;
      FinishedHasNoBatch(cfg, s.intake);
      var w :| 0 <= w < |workers| && !workers[w].Exited?;
      WorkerWorks(cfg, s, w);
    } else {
      TimerHolds(cfg, s);
      BuilderLeadsToWork(cfg, s);
    }
  }

  lemma FinishedHasNoBatch(cfg: Config, intake: Intake)
    requires Flow(cfg, intake) && intake.builder.Finished?
    ensures intake.batch == []
  {
  }

  lemma TimerHolds(cfg: Config, s: State)
    requires cfg.Valid() && Reachable(cfg, s)
    ensures TimerOk(s)
  {
    TimerIsNeverLost(cfg, s);
  }

  lemma WorkMeansBusy(cfg: Config, s: State, a: Action)
    requires cfg.Valid() && Control(cfg, s) && Flow(cfg, s.intake)
    requires Working(s, a) && Next(cfg, s, a).Moves?
    ensures Busy(s)
  {
    if a.WorkerStep? {
      assert !s.crew.workers[a.w].Exited?;
    }
  }

  lemma TickKeepsBusy(cfg: Config, s: State, a: Action)
    requires Ticking(s, a) && Next(cfg, s, a).Moves? && Busy(Next(cfg, s, a).next)
    ensures Busy(s)
  {
  }

  lemma {:induction false} LeadsToWorkMeansBusy(cfg: Config, s: State, n: nat)
    requires cfg.Valid() && Reachable(cfg, s) && LeadsToWork(cfg, s, n)
    ensures Busy(s)
    decreases n
  {
    hide Next, Working, Ticking, Busy, Flow, Delivery, Accounted, LedgerOk, WaitingOk;
    ReachableIsSound(cfg, s);
    if a :| Working(s, a) && Next(cfg, s, a).Moves? {
      WorkMeansBusy(cfg, s, a);
    } else {
      var a :| Ticking(s, a) && Next(cfg, s, a).Moves? && LeadsToWork(cfg, Next(cfg, s, a).next, n - 1);
      ReachableStep(cfg, s, a);
      LeadsToWorkMeansBusy(cfg, Next(cfg, s, a).next, n - 1);
      TickKeepsBusy(cfg, s, a);
    }
  }

  /** No deadlock: a started processor has something left to deliver, or goroutines left to end, exactly
      if the builder or a worker can take a working step, at the latest after two steps of the tick. */
  lemma BusyIffWorkLeft(cfg: Config, s: State, n: nat)
    requires cfg.Valid() && Reachable(cfg, s) && s.intake.Started() && n >= 2
    ensures Busy(s) <==> LeadsToWork(cfg, s, n)
    decreases n
  {
    if Busy(s) {
      if n == 2 {
        BusyLeadsToWork(cfg, s);
      } else {
        BusyIffWorkLeft(cfg, s, n - 1);
        WorkMonotone(cfg, s, n - 1);
      }
    }
    if LeadsToWork(cfg, s, n) {
      LeadsToWorkMeansBusy(cfg, s, n);
    }
  }

  // ----- The measure -----

  function BuilderLoad(builder: Builder): nat {
    match builder
    case NotStarted => 0
    case Selecting => 3
    case Sending => 3
    case Resetting => 3
    case SendingLast => 2
    case Closing => 1
    case Finished => 0
  }

  function ParcelLoad(p: Parcel): nat { 6 + 2 * |p.items| }

  function WorkerLoad(worker: Worker): nat {
    match worker
    case Unborn => 0
    case Exited => 0
    case Idle => 1
    case Received(p) => 6 + 2 * |p.items|
    case Ready(p) => 5 + 2 * |p.items|
    case Exporting(p) => 4 + 2 * |p.items|
    case Signalling(p, k, _, sent) =>
      3 + (if k < |p.items| then 2 * (|p.items| - k) else 0) - if sent then 1 else 0
  }

  function ChannelLoad(batchCh: seq<Parcel>): nat {
    if batchCh == [] then 0 else ChannelLoad(batchCh[..|batchCh| - 1]) + ParcelLoad(batchCh[|batchCh| - 1])
  }

  function CrewLoad(workers: seq<Worker>): nat {
    if workers == [] then 0 else WorkerLoad(workers[0]) + CrewLoad(workers[1..])
  }

  /** A bound on the working steps left, by how far each item has come. */
  function Load(s: State): nat {
    10 * |s.intake.queue| + 9 * |s.intake.batch| + BuilderLoad(s.intake.builder)
    + ChannelLoad(s.crew.batchCh) + CrewLoad(s.crew.workers)
  }

  lemma {:induction false} ChannelLoadSplit(batchCh: seq<Parcel>)
    requires batchCh != []
    ensures ChannelLoad(batchCh) == ParcelLoad(batchCh[0]) + ChannelLoad(batchCh[1..])
  {
    var n := |batchCh| - 1;
    if n > 0 {
      ChannelLoadSplit(batchCh[..n]);
      assert batchCh[1..][..n - 1] == batchCh[..n][1..];
    }
  }

  lemma {:induction false} CrewLoadUpdate(workers: seq<Worker>, w: nat, worker: Worker)
    requires w < |workers|
    ensures CrewLoad(workers[w := worker]) == CrewLoad(workers) - WorkerLoad(workers[w]) + WorkerLoad(worker)
  {
    if w == 0 {
      assert workers[0 := worker][1..] == workers[1..];
    } else {
      assert workers[w := worker][1..] == workers[1..][w - 1 := worker];
      CrewLoadUpdate(workers[1..], w - 1, worker);
    }
  }

  /** The part of a worker's step that the load sees. */
  ghost predicate Unloads(s: State, s': State, w: nat)
    requires w < |s.crew.workers|
  {
    && s'.intake == s.intake
    && |s'.crew.workers| == |s.crew.workers| && s'.crew.workers == s.crew.workers[w := s'.crew.workers[w]]
    && WorkerLoad(s'.crew.workers[w]) + ChannelLoad(s'.crew.batchCh) <
       WorkerLoad(s.crew.workers[w]) + ChannelLoad(s.crew.batchCh)
  }

  lemma SignalUnloads(cfg: Config, s: State, w: nat, ok: bool)
    requires w < |s.crew.workers| && s.crew.workers[w].Signalling? && StepWorker(cfg, s, w, ok).Moves?
    ensures Unloads(s, StepWorker(cfg, s, w, ok).next, w)
  {
  }

  lemma OtherUnloads(cfg: Config, s: State, w: nat, ok: bool)
    requires w < |s.crew.workers| && !s.crew.workers[w].Signalling? && StepWorker(cfg, s, w, ok).Moves?
    ensures Unloads(s, StepWorker(cfg, s, w, ok).next, w)
  {
    hide ChannelLoad;
    if s.crew.workers[w].Idle? && s.crew.batchCh != [] {
      ChannelLoadSplit(s.crew.batchCh);
    }
  }

  lemma WorkerStepUnloads(s: State, s': State, w: nat)
    requires w < |s.crew.workers| && Unloads(s, s', w)
    ensures Load(s') < Load(s)
  {
    CrewLoadUpdate(s.crew.workers, w, s'.crew.workers[w]);
  }

  lemma SendUnloads(cfg: Config, s: State, next: Builder)
    requires Flow(cfg, s.intake) && s.intake.batch != [] && Send(cfg, s, next).Moves?
    requires BuilderLoad(next) <= BuilderLoad(s.intake.builder)
    ensures Load(Send(cfg, s, next).next) < Load(s)
  {
    var batchCh := Send(cfg, s, next).next.crew.batchCh;
    assert batchCh[..|s.crew.batchCh|] == s.crew.batchCh;
  }

  /** A working step lowers the load; a tick leaves it as it is. */
  lemma WorkUnloads(cfg: Config, s: State, a: Action)
    requires Flow(cfg, s.intake) && (Working(s, a) || Ticking(s, a)) && Next(cfg, s, a).Moves?
    ensures Working(s, a) ==> Load(Next(cfg, s, a).next) < Load(s)
    ensures Ticking(s, a) ==> Load(Next(cfg, s, a).next) == Load(s)
  {
    match a {
      case WorkerStep(w, ok) =>
        if s.crew.workers[w].Signalling? {
          SignalUnloads(cfg, s, w, ok);
        } else {
          OtherUnloads(cfg, s, w, ok);
        }
        WorkerStepUnloads(s, Next(cfg, s, a).next, w);
      case BuilderProceed =>
        if s.intake.builder.Sending? {
          SendUnloads(cfg, s, Selecting);
        } else if s.intake.builder.SendingLast? {
          SendUnloads(cfg, s, Closing);
        }
      case _ =>
    }
  }

  // ----- Schedules -----

  /** A run from a given state in which only the builder, the workers and the timer take steps. */
  ghost predicate IsSchedule(cfg: Config, states: seq<State>, actions: seq<Action>) {
    && |states| == |actions| + 1
    && forall i :: 0 <= i < |actions| ==>
         (Working(states[i], actions[i]) || Ticking(states[i], actions[i])) && Next(cfg, states[i], actions[i]) == Moves(states[i + 1])
  }

  /** The working steps among the first n. */
  function WorkingSteps(states: seq<State>, actions: seq<Action>, n: nat): nat
    requires n <= |actions| < |states|
  {
    if n == 0 then 0 else WorkingSteps(states, actions, n - 1) + if Working(states[n - 1], actions[n - 1]) then 1 else 0
  }

  lemma ScheduleStep(cfg: Config, s: State, a: Action)
    requires (Working(s, a) || Ticking(s, a)) && Next(cfg, s, a).Moves?
    ensures var s' := Next(cfg, s, a).next;
      s'.intake.Started() == s.intake.Started() && s'.intake.accepted == s.intake.accepted && s'.gate == s.gate
  {
    if a.WorkerStep? {
      hide StepWorker;
      WorkerStepLives(cfg, s, a.w, a.ok);
    }
  }

  /** A schedule stays within the reachable states, accepts nothing and leaves the gate alone. */
  lemma {:induction false} ScheduleIsReachable(cfg: Config, states: seq<State>, actions: seq<Action>, i: nat)
    requires IsSchedule(cfg, states, actions) && Reachable(cfg, states[0]) && i <= |actions|
    ensures Reachable(cfg, states[i])
    ensures states[i].intake.Started() == states[0].intake.Started()
    ensures states[i].intake.accepted == states[0].intake.accepted && states[i].gate == states[0].gate
  {
    if i > 0 {
      hide Next;
      var j := i - 1;
      ScheduleIsReachable(cfg, states, actions, j);
      assert Next(cfg, states[j], actions[j]) == Moves(states[j + 1]);
      ReachableStep(cfg, states[j], actions[j]);
      ScheduleStep(cfg, states[j], actions[j]);
    }
  }

  lemma {:induction false} ScheduleUnloads(cfg: Config, states: seq<State>, actions: seq<Action>, i: nat)
    requires cfg.Valid() && IsSchedule(cfg, states, actions) && Reachable(cfg, states[0]) && i <= |actions|
    ensures Load(states[i]) + WorkingSteps(states, actions, i) <= Load(states[0])
  {
    if i > 0 {
      hide Next, Load;
      var j := i - 1;
      ScheduleUnloads(cfg, states, actions, j);
      ScheduleIsReachable(cfg, states, actions, j);
      ReachableIsSound(cfg, states[j]);
      assert Next(cfg, states[j], actions[j]) == Moves(states[j + 1]);
      WorkUnloads(cfg, states[j], actions[j]);
    }
  }

  lemma IdleMeansDelivered(cfg: Config, s: State)
    requires cfg.Valid() && Reachable(cfg, s) && !Busy(s)
    ensures AllDelivered(cfg, s)
    ensures s.gate.closer.Joining? ==> Next(cfg, s, CloserStep).Moves?
  {
    ReachableIsSound(cfg, s);
    QuietMeansDelivered(cfg, s);
  }

  /** However the builder, the workers and the timer of a started processor are scheduled, ticks included,
      they take at most Load working steps; and once the tick leads to none any more, everything accepted
      was delivered, and a shutdown that closed the queue can finish its wait. */
  lemma EveryScheduleDelivers(cfg: Config, states: seq<State>, actions: seq<Action>)
    requires cfg.Valid() && IsSchedule(cfg, states, actions) && Reachable(cfg, states[0]) && states[0].intake.Started()
    ensures WorkingSteps(states, actions, |actions|) <= Load(states[0])
    ensures var last := states[|actions|];
      !LeadsToWork(cfg, last, 2) ==>
        && AllDelivered(cfg, last) && last.intake.accepted == states[0].intake.accepted
        && (last.gate.closer.Joining? ==> Next(cfg, last, CloserStep).Moves?)
  {
    hide Next, Load, LeadsToWork, Working, Ticking, Busy, AllDelivered;
    var n := |actions|;
    ScheduleUnloads(cfg, states, actions, n);
    ScheduleIsReachable(cfg, states, actions, n);
    BusyIffWorkLeft(cfg, states[n], 2);
    if !Busy(states[n]) {
      IdleMeansDelivered(cfg, states[n]);
    }
  }

  /** A partial batch is not held back by ticks: three of them in a row do not fit around one. */
  lemma TicksFlush(cfg: Config, s: State, a: Action, b: Action, c: Action)
    requires cfg.Valid() && Reachable(cfg, s) && s.intake.batch != []
    requires Ticking(s, a) && Next(cfg, s, a).Moves?
    requires var s1 := Next(cfg, s, a).next; Ticking(s1, b) && Next(cfg, s1, b).Moves?
    requires var s2 := Next(cfg, Next(cfg, s, a).next, b).next; Ticking(s2, c)
    ensures !Next(cfg, Next(cfg, Next(cfg, s, a).next, b).next, c).Moves?
  {
    ReachableIsSound(cfg, s);
  }

  lemma ScheduleFrom(cfg: Config, s: State, a: Action, states: seq<State>, actions: seq<Action>)
    requires IsSchedule(cfg, states, actions) && (Working(s, a) || Ticking(s, a)) && Next(cfg, s, a) == Moves(states[0])
    ensures IsSchedule(cfg, [s] + states, [a] + actions)
  {
    hide Next;
    var states', actions' := [s] + states, [a] + actions;
    forall i | 0 <= i < |actions'|
      ensures (Working(states'[i], actions'[i]) || Ticking(states'[i], actions'[i])) && Next(cfg, states'[i], actions'[i]) == Moves(states'[i + 1])
    {
      if i > 0 {
        var j := i - 1;
        assert Next(cfg, states[j], actions[j]) == Moves(states[j + 1]);
      }
    }
  }

  /** A schedule that delivers everything exists from every reachable state of a started processor. */
  lemma {:induction false} Drains(cfg: Config, s: State) returns (states: seq<State>, actions: seq<Action>)
    requires cfg.Valid() && Reachable(cfg, s) && s.intake.Started()
    ensures IsSchedule(cfg, states, actions) && states[0] == s && !Busy(states[|actions|])
    decreases Load(s), 3
  {
    if !Busy(s) {
      states, actions := [s], [];
    } else {
      BusyIffWorkLeft(cfg, s, 2);
      states, actions := DrainsByWork(cfg, s, 2);
    }
  }

  lemma {:induction false} DrainsByWork(cfg: Config, s: State, n: nat) returns (states: seq<State>, actions: seq<Action>)
    requires cfg.Valid() && Reachable(cfg, s) && s.intake.Started() && LeadsToWork(cfg, s, n) && n <= 2
    ensures IsSchedule(cfg, states, actions) && states[0] == s && !Busy(states[|actions|])
    decreases Load(s), n
  {
    hide Next, Load, Busy, Sound;
    var a: Action;
    if work :| Working(s, work) && Next(cfg, s, work).Moves? {
      a := work;
      AfterStep(cfg, s, a);
      states, actions := Drains(cfg, Next(cfg, s, a).next);
    } else {
      a :| Ticking(s, a) && Next(cfg, s, a).Moves? && LeadsToWork(cfg, Next(cfg, s, a).next, n - 1);
      AfterStep(cfg, s, a);
      states, actions := DrainsByWork(cfg, Next(cfg, s, a).next, n - 1);
    }
    ScheduleFrom(cfg, s, a, states, actions);
    states, actions := [s] + states, [a] + actions;
  }

  lemma AfterStep(cfg: Config, s: State, a: Action)
    requires cfg.Valid() && Reachable(cfg, s) && s.intake.Started()
    requires (Working(s, a) || Ticking(s, a)) && Next(cfg, s, a).Moves?
    ensures var s' := Next(cfg, s, a).next;
      && Reachable(cfg, s') && s'.intake.Started()
      && (Working(s, a) ==> Load(s') < Load(s)) && (Ticking(s, a) ==> Load(s') == Load(s))
  {
    hide Next, Load;
    ReachableIsSound(cfg, s);
    ReachableStep(cfg, s, a);
    ScheduleStep(cfg, s, a);
    WorkUnloads(cfg, s, a);
  }

  // ----- Calls -----

  /** A call that holds the read lock can always go on, and releases it at the latest at its send. */
  lemma ReaderMoves(cfg: Config, s: State, c: nat)
    requires cfg.Valid() && Reachable(cfg, s) && c < |s.calls| && s.calls[c].HoldsReadLock()
    ensures Next(cfg, s, CallStep(c)).Moves?
    ensures s.calls[c].phase.Checked? ==> !Next(cfg, s, CallStep(c)).next.calls[c].HoldsReadLock()
  {
    ReachableIsSound(cfg, s);
    assert ReaderOk(s.gate, s.calls[c]);
  }

  lemma WaitedIsAccepted(cfg: Config, c: nat, call: Call, accepted: seq<Item>)
    requires CallOk(cfg, c, call, OfCall(accepted, c)) && call.Waits()
    ensures call.phase.items[call.phase.i] in accepted
  {
    var items, i := call.phase.items, call.phase.i;
    var before := Prepare(c, call.input, 0, call.start);
    assert OfCall(accepted, c)[|before| + i] == items[i];
    OfCallHas(accepted, c, items[i]);
  }

  lemma ValueWaits(cfg: Config, calls: seq<Call>, channels: map<Item, ResultCh>, c: nat, mine: seq<Item>)
    requires WaitersOk(calls, channels) && c < |calls| && calls[c].Waits() && CallOk(cfg, c, calls[c], mine)
    requires calls[c].phase.items[calls[c].phase.i] in channels
    ensures channels[calls[c].phase.items[calls[c].phase.i]].buffer.Some?
  {
    WaitedIsUnconsumed(cfg, c, calls[c], mine);
  }

  /** Once everything was delivered, every call that waits for a result can go on. */
  lemma WaiterIsAnswered(cfg: Config, s: State, c: nat)
    requires cfg.Valid() && cfg.sync && Reachable(cfg, s) && AllDelivered(cfg, s)
    requires c < |s.calls| && s.calls[c].Waits()
    ensures Next(cfg, s, CallStep(c)).Moves?
  {
    ReachableIsSound(cfg, s);
    WaitedIsAccepted(cfg, c, s.calls[c], s.intake.accepted);
    ValueWaits(cfg, s.calls, s.answers.channels, c, OfCall(s.intake.accepted, c));
  }
}
