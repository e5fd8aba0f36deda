/**
 Conservation and order in the batch processor: where accepted items are, in every interleaving, and
 which channels and locks are open.
 */
module BatchFlow {
  import opened BatchProcessor
  import Bags

  // ----- Control: locks, closed channels, started goroutines -----

  /** A call holding the read lock keeps the queue open; a checked one was let in before the queue could close. */
  ghost predicate ReaderOk(gate: Gate, call: Call) {
    && (call.HoldsReadLock() ==> !gate.closer.HoldsWriteLock() && call.phase.i < |call.phase.items|)
    && (call.phase.Checked? ==> gate.closer.Running? || gate.closer.StopClosed? || gate.closer.LockWanted?)
  }

  ghost predicate ReadersOk(gate: Gate, calls: seq<Call>) {
    forall c {:trigger calls[c]} :: 0 <= c < |calls| ==> ReaderOk(gate, calls[c])
  }

  ghost predicate GateOk(gate: Gate) {
    && (gate.stopClosed <==> !gate.closer.Running?)
    && (gate.queueClosed <==>
          !(gate.closer.Running? || gate.closer.StopClosed? || gate.closer.LockWanted? || gate.closer.LockHeld?))
  }

  /** Workers live as long as the builder or the channel has work, and the builder ends only after the queue. */
  ghost predicate CrewOk(gate: Gate, intake: Intake, crew: Crew) {
    && (forall w {:trigger crew.workers[w]} :: 0 <= w < |crew.workers| ==>
          && (crew.workers[w].Unborn? <==> !intake.Started())
          && (crew.workers[w].Exited? ==> crew.closed && crew.batchCh == []))
    && (crew.closed <==> intake.builder.Finished?)
    && (intake.builder.SendingLast? || intake.builder.Closing? || intake.builder.Finished? ==>
          gate.queueClosed && intake.queue == [])
    && (gate.closer.PastJoin() && gate.closer.wasStarted ==> AllExited(intake, crew))
  }

  ghost predicate Control(cfg: Config, s: State) {
    && |s.crew.workers| == cfg.workers && |s.crew.batchCh| <= cfg.workers
    && GateOk(s.gate) && ReadersOk(s.gate, s.calls) && CrewOk(s.gate, s.intake, s.crew)
  }

  lemma ControlCallStep(cfg: Config, s: State, c: nat)
    requires Control(cfg, s) && c < |s.calls| && StepCall(cfg, s, c).Moves?
    ensures Control(cfg, StepCall(cfg, s, c).next)
  {
  }

  lemma ControlBuilderStep(cfg: Config, s: State, a: Action)
    requires Control(cfg, s) && (a.BuilderQueue? || a.BuilderTimer? || a.BuilderProceed?) && Next(cfg, s, a).Moves?
    ensures Control(cfg, Next(cfg, s, a).next)
  {
  }

  /** How a worker's life goes on: it is born, has not exited, and exits only from a closed, empty channel. */
  ghost predicate WorkerLives(was: Crew, crew: Crew, w: nat) {
    && w < |was.workers| == |crew.workers| && crew.workers == was.workers[w := crew.workers[w]]
    && !was.workers[w].Unborn? && !was.workers[w].Exited? && !crew.workers[w].Unborn?
    && crew.closed == was.closed
    && (was.batchCh == [] ==> crew.batchCh == [])
    && (crew.workers[w].Exited? ==> was.closed && was.batchCh == [])
    && |crew.batchCh| <= |was.batchCh|
  }

  lemma WorkerStepLives(cfg: Config, s: State, w: nat, ok: bool)
    requires w < |s.crew.workers| && StepWorker(cfg, s, w, ok).Moves?
    ensures var s' := StepWorker(cfg, s, w, ok).next;
      WorkerLives(s.crew, s'.crew, w) && s'.intake == s.intake && s'.gate == s.gate && s'.calls == s.calls
  {
  }

  lemma CrewOkLives(gate: Gate, intake: Intake, was: Crew, crew: Crew, w: nat)
    requires CrewOk(gate, intake, was) && WorkerLives(was, crew, w)
    ensures CrewOk(gate, intake, crew)
  {
    assert !AllExited(intake, was);
  }

  lemma ControlWorkerStep(cfg: Config, s: State, w: nat, ok: bool)
    requires Control(cfg, s) && w < |s.crew.workers| && StepWorker(cfg, s, w, ok).Moves?
    ensures Control(cfg, StepWorker(cfg, s, w, ok).next)
  {
    hide ReadersOk, GateOk, CrewOk, StepWorker;
    WorkerStepLives(cfg, s, w, ok);
    CrewOkLives(s.gate, s.intake, s.crew, StepWorker(cfg, s, w, ok).next.crew, w);
  }

  lemma ControlCloserStep(cfg: Config, s: State)
    requires Control(cfg, s) && StepCloser(s).Moves?
    ensures Control(cfg, StepCloser(s).next)
  {
  }

  lemma ControlStep(cfg: Config, s: State, a: Action)
    requires Control(cfg, s) && Next(cfg, s, a).Moves?
    ensures Control(cfg, Next(cfg, s, a).next)
  {
    match a {
      case CallStep(c) => ControlCallStep(cfg, s, c);
      case BuilderQueue => ControlBuilderStep(cfg, s, a);
      case BuilderTimer => ControlBuilderStep(cfg, s, a);
      case BuilderProceed => ControlBuilderStep(cfg, s, a);
      case WorkerStep(w, ok) => ControlWorkerStep(cfg, s, w, ok);
      case CloserStep => ControlCloserStep(cfg, s);
      case _ =>
    }
  }

  // ----- Flow: order and sizes -----

  function Flatten(batches: seq<seq<Item>>): seq<Item> {
    if batches == [] then [] else Flatten(batches[..|batches| - 1]) + batches[|batches| - 1]
  }

  lemma FlattenAppend(batches: seq<seq<Item>>, b: seq<Item>)
    ensures Flatten(batches + [b]) == Flatten(batches) + b
  {
    assert (batches + [b])[..|batches|] == batches;
  }

  /** The batches sent, the builder's batch and the queue are the accepted items in order, cut into
      pieces of the allowed sizes. */
  ghost predicate Flow(cfg: Config, n: Intake) {
    && n.accepted == Flatten(n.sent) + n.batch + n.queue
    && (forall t :: 0 <= t < |n.sent| ==> 1 <= |n.sent[t]| <= cfg.maxBatch)
    && |n.queue| <= cfg.maxQueue && |n.batch| <= cfg.maxBatch
    && (n.builder.Selecting? ==> |n.batch| < cfg.maxBatch)
    && (n.builder.Sending? || n.builder.SendingLast? ==> n.batch != [])
    && (n.builder.NotStarted? || n.builder.Resetting? || n.builder.Closing? || n.builder.Finished? ==> n.batch == [])
    && (n.builder.NotStarted? ==> n.sent == [])
  }

  lemma FlowQueueStep(cfg: Config, s: State)
    requires Flow(cfg, s.intake) && StepBuilderQueue(cfg, s).Moves?
    ensures Flow(cfg, StepBuilderQueue(cfg, s).next.intake)
  {
    var n := s.intake;
    if n.queue != [] {
      assert n.batch + n.queue == n.batch + [n.queue[0]] + n.queue[1..];
    }
  }

  lemma FlowSend(cfg: Config, s: State, next: Builder)
    requires Flow(cfg, s.intake) && s.intake.batch != [] && (next.Selecting? || next.Closing?) && cfg.Valid()
    requires Send(cfg, s, next).Moves?
    ensures Flow(cfg, Send(cfg, s, next).next.intake)
  {
    FlattenAppend(s.intake.sent, s.intake.batch);
  }

  lemma FlowCallStep(cfg: Config, s: State, c: nat)
    requires Flow(cfg, s.intake) && c < |s.calls| && StepCall(cfg, s, c).Moves?
    ensures Flow(cfg, StepCall(cfg, s, c).next.intake)
  {
  }

  lemma FlowStep(cfg: Config, s: State, a: Action)
    requires cfg.Valid() && Flow(cfg, s.intake) && Next(cfg, s, a).Moves?
    ensures Flow(cfg, Next(cfg, s, a).next.intake)
  {
    match a {
      case CallStep(c) => FlowCallStep(cfg, s, c);
      case BuilderQueue => FlowQueueStep(cfg, s);
      case BuilderProceed =>
        if s.intake.builder.Sending? {
          FlowSend(cfg, s, Selecting);
        } else if s.intake.builder.SendingLast? {
          FlowSend(cfg, s, Closing);
        }
      case _ =>
    }
  }

  // ----- Parcels: every batch sent is at exactly one place -----

  function Parcels(sent: seq<seq<Item>>): seq<Parcel> {
    seq(|sent|, n requires 0 <= n < |sent| => Parcel(n, sent[n]))
  }

  function HeldBy(worker: Worker): multiset<Parcel> {
    if worker.Holds() then multiset{worker.parcel} else multiset{}
  }

  /** The batches held by workers that have not called the exporter with them yet. */
  function Held(workers: seq<Worker>): multiset<Parcel> {
    if workers == [] then multiset{} else Held(workers[1..]) + HeldBy(workers[0])
  }

  lemma {:induction false} HeldUpdate(workers: seq<Worker>, w: nat, worker: Worker)
    requires w < |workers|
    ensures Held(workers[w := worker]) + HeldBy(workers[w]) == Held(workers) + HeldBy(worker)
  {
    var later, was := workers[1..], workers[w];
    if w == 0 {
      assert workers[0 := worker][1..] == later;
      Bags.Swap(Held(later), HeldBy(worker), HeldBy(was));
    } else {
      assert workers[w := worker][1..] == later[w - 1 := worker];
      HeldUpdate(later, w - 1, worker);
      Bags.Swap(Held(later[w - 1 := worker]), HeldBy(workers[0]), HeldBy(was));
      Bags.Swap(Held(later), HeldBy(worker), HeldBy(workers[0]));
    }
  }

  lemma {:induction false} NobodyHolds(workers: seq<Worker>)
    requires forall w :: 0 <= w < |workers| ==> !workers[w].Holds()
    ensures Held(workers) == multiset{}
  {
    if workers != [] {
      assert !workers[0].Holds();
      NobodyHolds(workers[1..]);
    }
  }

  /** The channel is the end of what was sent. */
  ghost predicate ChannelIsTail(sent: seq<seq<Item>>, batchCh: seq<Parcel>) {
    |batchCh| <= |sent| && batchCh == Parcels(sent)[|sent| - |batchCh|..]
  }

  /** The batch was sent and has left the channel. */
  ghost predicate Received(sent: seq<seq<Item>>, batchCh: seq<Parcel>, p: Parcel) {
    p.ticket + |batchCh| < |sent| && p.items == sent[p.ticket]
  }

  /** A worker's batch is one that was received from the channel, and no two workers have the same. */
  ghost predicate WorkersApart(sent: seq<seq<Item>>, batchCh: seq<Parcel>, workers: seq<Worker>) {
    && (forall w {:trigger workers[w]} :: 0 <= w < |workers| && workers[w].HasParcel() ==>
          Received(sent, batchCh, workers[w].parcel))
    && (forall v, w {:trigger workers[v], workers[w]} ::
          0 <= v < w < |workers| && workers[v].HasParcel() && workers[w].HasParcel() ==>
          workers[v].parcel.ticket != workers[w].parcel.ticket)
  }

  ghost predicate Conserved(sent: seq<seq<Item>>, batchCh: seq<Parcel>, workers: seq<Worker>, handed: seq<Parcel>) {
    multiset(handed) + Held(workers) + multiset(batchCh) == multiset(Parcels(sent))
  }

  ghost predicate Delivery(sent: seq<seq<Item>>, crew: Crew) {
    && ChannelIsTail(sent, crew.batchCh)
    && WorkersApart(sent, crew.batchCh, crew.workers)
    && Conserved(sent, crew.batchCh, crew.workers, crew.handed)
  }

  /** The worker keeps the batch it has, if any. */
  predicate SameParcel(was: Worker, worker: Worker) {
    worker.HasParcel() ==> was.HasParcel() && worker.parcel == was.parcel
  }

  lemma ApartKept(sent: seq<seq<Item>>, batchCh: seq<Parcel>, workers: seq<Worker>, w: nat, worker: Worker)
    requires WorkersApart(sent, batchCh, workers) && w < |workers| && SameParcel(workers[w], worker)
    ensures WorkersApart(sent, batchCh, workers[w := worker])
  {
  }

  lemma ApartTaken(sent: seq<seq<Item>>, batchCh: seq<Parcel>, workers: seq<Worker>, w: nat)
    requires ChannelIsTail(sent, batchCh) && batchCh != []
    requires WorkersApart(sent, batchCh, workers) && w < |workers|
    ensures ChannelIsTail(sent, batchCh[1..])
    ensures WorkersApart(sent, batchCh[1..], workers[w := Worker.Received(batchCh[0])])
  {
    assert batchCh[0] == Parcels(sent)[|sent| - |batchCh|];
  }

  lemma ConservedTaken(sent: seq<seq<Item>>, batchCh: seq<Parcel>, workers: seq<Worker>, handed: seq<Parcel>, w: nat)
    requires Conserved(sent, batchCh, workers, handed) && batchCh != [] && w < |workers| && workers[w].Idle?
    ensures Conserved(sent, batchCh[1..], workers[w := Worker.Received(batchCh[0])], handed)
  {
    HeldUpdate(workers, w, Worker.Received(batchCh[0]));
    Bags.Taken(multiset(handed), Held(workers), batchCh, multiset(Parcels(sent)));
  }

  lemma ConservedKept(sent: seq<seq<Item>>, batchCh: seq<Parcel>, workers: seq<Worker>, handed: seq<Parcel>, w: nat, worker: Worker)
    requires Conserved(sent, batchCh, workers, handed) && w < |workers|
    requires SameParcel(workers[w], worker) && workers[w].Holds() == worker.Holds()
    ensures Conserved(sent, batchCh, workers[w := worker], handed)
  {
    HeldUpdate(workers, w, worker);
    Bags.Cancel(Held(workers[w := worker]), Held(workers), HeldBy(worker));
  }

  lemma ConservedHanded(sent: seq<seq<Item>>, batchCh: seq<Parcel>, workers: seq<Worker>, handed: seq<Parcel>, w: nat, worker: Worker)
    requires Conserved(sent, batchCh, workers, handed) && w < |workers| && workers[w].Ready? && !worker.Holds()
    ensures Conserved(sent, batchCh, workers[w := worker], handed + [workers[w].parcel])
  {
    HeldUpdate(workers, w, worker);
    var p := workers[w].parcel;
    assert multiset(handed + [p]) + Held(workers[w := worker]) == multiset(handed) + (Held(workers[w := worker]) + multiset{p});
  }

  /** How a worker's step changes the channel, the workers and the batches handed over. */
  ghost predicate CrewMoves(was: Crew, crew: Crew, w: nat) {
    && w < |was.workers| == |crew.workers| && crew.workers == was.workers[w := crew.workers[w]]
    && if was.workers[w].Idle? && was.batchCh != [] then
         crew.workers[w] == Worker.Received(was.batchCh[0]) && crew.batchCh == was.batchCh[1..] && crew.handed == was.handed
       else
         && crew.batchCh == was.batchCh && SameParcel(was.workers[w], crew.workers[w])
         && if was.workers[w].Ready? then
              crew.handed == was.handed + [was.workers[w].parcel] && !crew.workers[w].Holds()
            else
              crew.handed == was.handed && crew.workers[w].Holds() == was.workers[w].Holds()
  }

  lemma WorkerStepMoves(cfg: Config, s: State, w: nat, ok: bool)
    requires w < |s.crew.workers| && StepWorker(cfg, s, w, ok).Moves?
    requires s.crew.workers[w].Ready? ==> s.crew.workers[w].parcel.items != []
    ensures CrewMoves(s.crew, StepWorker(cfg, s, w, ok).next.crew, w)
    ensures StepWorker(cfg, s, w, ok).next.intake == s.intake
  {
  }

  lemma DeliveryMoves(sent: seq<seq<Item>>, was: Crew, crew: Crew, w: nat)
    requires Delivery(sent, was) && CrewMoves(was, crew, w)
    ensures Delivery(sent, crew)
  {
    var worker := crew.workers[w];
    if was.workers[w].Idle? && was.batchCh != [] {
      ApartTaken(sent, was.batchCh, was.workers, w);
      ConservedTaken(sent, was.batchCh, was.workers, was.handed, w);
    } else {
      ApartKept(sent, was.batchCh, was.workers, w, worker);
      if was.workers[w].Ready? {
        ConservedHanded(sent, was.batchCh, was.workers, was.handed, w, worker);
      } else {
        ConservedKept(sent, was.batchCh, was.workers, was.handed, w, worker);
      }
    }
  }

  lemma DeliverySend(sent: seq<seq<Item>>, crew: Crew, b: seq<Item>)
    requires Delivery(sent, crew)
    ensures Delivery(sent + [b], crew.(batchCh := crew.batchCh + [Parcel(|sent|, b)]))
  {
    assert Parcels(sent + [b]) == Parcels(sent) + [Parcel(|sent|, b)];
  }

  lemma DeliveryClose(sent: seq<seq<Item>>, crew: Crew)
    requires Delivery(sent, crew)
    ensures Delivery(sent, crew.(closed := true))
  {
  }

  lemma DeliveryStart(sent: seq<seq<Item>>, crew: Crew)
    requires Delivery(sent, crew)
    requires forall w :: 0 <= w < |crew.workers| ==> crew.workers[w].Unborn?
    ensures Delivery(sent, crew.(workers := seq(|crew.workers|, _ => Idle)))
  {
    NobodyHolds(crew.workers);
    NobodyHolds(seq(|crew.workers|, _ => Idle));
  }

  lemma DeliveryWorkerStep(cfg: Config, s: State, w: nat, ok: bool)
    requires Flow(cfg, s.intake) && Delivery(s.intake.sent, s.crew)
    requires w < |s.crew.workers| && StepWorker(cfg, s, w, ok).Moves?
    ensures StepWorker(cfg, s, w, ok).next.intake == s.intake
    ensures Delivery(s.intake.sent, StepWorker(cfg, s, w, ok).next.crew)
  {
    WorkerStepMoves(cfg, s, w, ok);
    DeliveryMoves(s.intake.sent, s.crew, StepWorker(cfg, s, w, ok).next.crew, w);
  }

  lemma DeliveryStep(cfg: Config, s: State, a: Action)
    requires Control(cfg, s) && Flow(cfg, s.intake) && Delivery(s.intake.sent, s.crew) && Next(cfg, s, a).Moves?
    ensures Delivery(Next(cfg, s, a).next.intake.sent, Next(cfg, s, a).next.crew)
  {
    hide Delivery, Flow, StepWorker;
    match a {
      case Start => DeliveryStart(s.intake.sent, s.crew);
      case BuilderProceed =>
        DeliverySend(s.intake.sent, s.crew, s.intake.batch);
        DeliveryClose(s.intake.sent, s.crew);
      case WorkerStep(w, ok) => DeliveryWorkerStep(cfg, s, w, ok);
      case _ =>
    }
  }
}
