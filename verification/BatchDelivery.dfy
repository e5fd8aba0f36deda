/**
 The promises of the batch processor, in every reachable state: conservation of items, what a
 synchronous write knows, one value and one close for each result channel, and what shutdown delivers.
 */
module BatchDelivery {
  import opened Wrappers
  import opened BatchProcessor
  import opened BatchFlow
  import opened BatchCalls
  import opened BatchResults
  import opened BatchWaiters
  import opened BatchRuns
  import Bags

  // ----- Items of batches -----

  function Contents(parcels: seq<Parcel>): multiset<Item> {
    if parcels == [] then multiset{} else Contents(parcels[..|parcels| - 1]) + multiset(parcels[|parcels| - 1].items)
  }

  lemma {:induction false} ContentsAppend(a: seq<Parcel>, b: seq<Parcel>)
    ensures Contents(a + b) == Contents(a) + Contents(b)
  {
    if b == [] {
      assert a + b == a;
    } else {
      ContentsAppend(a, b[..|b| - 1]);
      assert (a + b)[..|a + b| - 1] == a + b[..|b| - 1];
    }
  }

  lemma ContentsInsert(a: seq<Parcel>, p: Parcel, b: seq<Parcel>)
    ensures Contents(a + [p] + b) == Contents(a + b) + multiset(p.items)
  {
    ContentsAppend(a + [p], b);
    assert (a + [p])[..|a|] == a;
    ContentsAppend(a, b);
  }

  /** The same batches in another order have the same contents. */
  lemma {:induction false} ContentsOfPermutation(a: seq<Parcel>, b: seq<Parcel>)
    requires multiset(a) == multiset(b)
    ensures Contents(a) == Contents(b)
    decreases |a|
  {
    assert |a| == |multiset(a)| == |multiset(b)| == |b|;
    if a != [] {
      var n := |a| - 1;
      assert a[n] in multiset(b);
      var k :| 0 <= k < |b| && b[k] == a[n];
      assert a == a[..n] + [a[n]];
      assert b == b[..k] + [b[k]] + b[k + 1..];
      ContentsInsert(b[..k], b[k], b[k + 1..]);
      Bags.Cancel(multiset(a[..n]), multiset(b[..k] + b[k + 1..]), multiset{a[n]});
      ContentsOfPermutation(a[..n], b[..k] + b[k + 1..]);
    }
  }

  lemma {:induction false} ContentsOfSent(sent: seq<seq<Item>>)
    ensures Contents(Parcels(sent)) == multiset(Flatten(sent))
  {
    if sent != [] {
      var n := |sent| - 1;
      ContentsOfSent(sent[..n]);
      assert Parcels(sent)[..n] == Parcels(sent[..n]);
    }
  }

  function HeldList(workers: seq<Worker>): seq<Parcel> {
    if workers == [] then [] else HeldList(workers[1..]) + if workers[0].Holds() then [workers[0].parcel] else []
  }

  lemma {:induction false} HeldListIsHeld(workers: seq<Worker>)
    ensures multiset(HeldList(workers)) == Held(workers)
  {
    if workers != [] {
      HeldListIsHeld(workers[1..]);
    }
  }

  // ----- Conservation -----

  /** The items waiting in the queue or in the builder's batch, in flight, and handed to the exporter. */
  function Waiting(s: State): multiset<Item> { multiset(s.intake.queue) + multiset(s.intake.batch) }

  function InFlight(s: State): multiset<Item> { Contents(s.crew.batchCh) + Contents(HeldList(s.crew.workers)) }

  function Exported(s: State): multiset<Item> { Contents(s.crew.handed) }

  lemma SentIsSomewhere(sent: seq<seq<Item>>, crew: Crew)
    requires Conserved(sent, crew.batchCh, crew.workers, crew.handed)
    ensures Contents(crew.handed) + Contents(HeldList(crew.workers)) + Contents(crew.batchCh) == multiset(Flatten(sent))
  {
    var held := HeldList(crew.workers);
    HeldListIsHeld(crew.workers);
    ContentsOfPermutation(crew.handed + held + crew.batchCh, Parcels(sent));
    ContentsAppend(crew.handed + held, crew.batchCh);
    ContentsAppend(crew.handed, held);
    ContentsOfSent(sent);
  }

  /** Every accepted item is at exactly one place, and was accepted once. */
  lemma EveryItemInOnePlace(cfg: Config, s: State)
    requires cfg.Valid() && Reachable(cfg, s)
    ensures multiset(s.intake.accepted) == Waiting(s) + InFlight(s) + Exported(s)
    ensures forall x :: multiset(s.intake.accepted)[x] <= 1
  {
    ReachableIsSound(cfg, s);
    SentIsSomewhere(s.intake.sent, s.crew);
    forall x ensures multiset(s.intake.accepted)[x] <= 1 {
      CountOfDistinct(s.intake.accepted, x);
    }
  }

  lemma {:induction false} CountOfDistinct(items: seq<Item>, x: Item)
    requires Distinct(items)
    ensures multiset(items)[x] <= 1
  {
    if items != [] {
      var n := |items| - 1;
      CountOfDistinct(items[..n], x);
      assert items == items[..n] + [items[n]];
      assert x == items[n] ==> x !in items[..n];
    }
  }

  /** Batches leave in the order the items came, none empty, none too large, and the queue and the
      batch channel stay within their capacities. */
  lemma BatchesKeepOrder(cfg: Config, s: State)
    requires cfg.Valid() && Reachable(cfg, s)
    ensures s.intake.accepted == Flatten(s.intake.sent) + s.intake.batch + s.intake.queue
    ensures forall t :: 0 <= t < |s.intake.sent| ==> 1 <= |s.intake.sent[t]| <= cfg.maxBatch
    ensures |s.intake.queue| <= cfg.maxQueue && |s.crew.batchCh| <= cfg.workers
    ensures multiset(s.crew.handed) <= multiset(Parcels(s.intake.sent))
  {
    ReachableIsSound(cfg, s);
  }

  /** What is accepted of a call is an in-order prefix of its non-nil input, all of it if the call returned nil. */
  lemma AcceptedIsPrefix(cfg: Config, s: State, c: nat)
    requires cfg.Valid() && Reachable(cfg, s) && c < |s.calls|
    ensures OfCall(s.intake.accepted, c) <= Prepare(c, s.calls[c].input, 0, |s.calls[c].input|)
    ensures s.calls[c].phase == Returned(Ok) ==>
      OfCall(s.intake.accepted, c) == Prepare(c, s.calls[c].input, 0, |s.calls[c].input|)
  {
    ReachableIsSound(cfg, s);
    var call := s.calls[c];
    assert CallOk(cfg, c, call, OfCall(s.intake.accepted, c));
    match call.phase
    case Returned(_) =>
    case NextChunk => ChunkOfInput(cfg, c, call, 0);
    case Waiting(items, _) => ChunkOfInput(cfg, c, call, |items|);
    case _ => ChunkOfInput(cfg, c, call, call.phase.i);
  }

  /** Why a call returned at a step: ErrShuttingDown and ErrQueueFull mean that its next item was refused,
      because the stop channel was closed or the queue was full. */
  ghost predicate Justified(cfg: Config, gate: Gate, intake: Intake, outcome: map<nat, bool>, c: nat, call: Call, result: WriteResult) {
    var mine := OfCall(intake.accepted, c);
    var all := Prepare(c, call.input, 0, |call.input|);
    match result
    case Ok => mine == all
    case NoExporter => false
    case ShuttingDown => gate.stopClosed && mine < all
    case QueueFull => !gate.queueClosed && |intake.queue| == cfg.maxQueue && mine < all
    case ExportFailed => SomeFailed(intake.sent, outcome, all)
    case ContextDone => false
  }

  lemma RefusedItem(cfg: Config, c: nat, call: Call, mine: seq<Item>)
    requires CallOk(cfg, c, call, mine) && call.HoldsReadLock() && call.phase.i < |call.phase.items|
    ensures mine < Prepare(c, call.input, 0, |call.input|)
  {
    ChunkOfInput(cfg, c, call, call.phase.i);
  }

  lemma TurnIsJustified(cfg: Config, gate: Gate, intake: Intake, answers: Answers, c: nat, call: Call)
    requires CallOk(cfg, c, call, OfCall(intake.accepted, c)) && ReaderOk(gate, call) && |intake.queue| <= cfg.maxQueue
    requires CallTurn(cfg, gate, |intake.queue|, answers, c, call).Becomes?
    requires var turned := CallTurn(cfg, gate, |intake.queue|, answers, c, call).call;
      && turned.phase.Returned?
      && (cfg.sync ==> Informed(intake.sent, answers.outcome, c, turned))
    ensures Justified(cfg, gate, intake, answers.outcome, c, call,
                      CallTurn(cfg, gate, |intake.queue|, answers, c, call).call.phase.result)
  {
    hide OfCall, SomeFailed, AllSucceeded;
    if call.HoldsReadLock() {
      RefusedItem(cfg, c, call, OfCall(intake.accepted, c));
    }
  }

  lemma KnownAfter(cfg: Config, s: State, c: nat)
    requires cfg.Valid() && Reachable(cfg, s) && Next(cfg, s, CallStep(c)).Moves? && c < |s.calls|
    ensures cfg.sync ==> Informed(s.intake.sent, s.answers.outcome, c, Next(cfg, s, CallStep(c)).next.calls[c])
  {
    ReachableStep(cfg, s, CallStep(c));
    ReachableIsSound(cfg, Next(cfg, s, CallStep(c)).next);
    hide Informed, CallTurn;
  }

  lemma WhyWritesReturn(cfg: Config, s: State, c: nat)
    requires cfg.Valid() && Reachable(cfg, s) && c < |s.calls| && Next(cfg, s, CallStep(c)).Moves?
    requires Next(cfg, s, CallStep(c)).next.calls[c].phase.Returned?
    ensures Justified(cfg, s.gate, s.intake, s.answers.outcome, c, s.calls[c], Next(cfg, s, CallStep(c)).next.calls[c].phase.result)
  {
    hide Justified, Informed, CallOk, ReaderOk, CallTurn, Delivery, LedgerOk, WaitingOk, Distinct;
    ReachableIsSound(cfg, s);
    KnownAfter(cfg, s, c);
    TurnIsJustified(cfg, s.gate, s.intake, s.answers, c, s.calls[c]);
  }

  /** Once shutdown has the write lock, nothing more is accepted. */
  lemma NothingAcceptedOnceLocked(cfg: Config, s: State, a: Action)
    requires cfg.Valid() && Reachable(cfg, s) && Next(cfg, s, a).Moves?
    requires !s.gate.closer.Running? && !s.gate.closer.StopClosed? && !s.gate.closer.LockWanted?
    ensures Next(cfg, s, a).next.intake.accepted == s.intake.accepted
  {
    hide Flow, Delivery, Accounted, LedgerOk, WaitingOk, StepWorker;
    ReachableIsSound(cfg, s);
    match a {
      case CallStep(c) => assert ReaderOk(s.gate, s.calls[c]);
      case WorkerStep(w, ok) => WorkerStepLives(cfg, s, w, ok);
      case _ =>
    }
  }

  /** The builder sends after taking an item exactly when that made the batch full. */
  lemma FullBatchesAreSent(cfg: Config, s: State)
    requires cfg.Valid() && Reachable(cfg, s) && s.intake.queue != [] && Next(cfg, s, BuilderQueue).Moves?
    ensures var n := Next(cfg, s, BuilderQueue).next.intake;
      n.builder.Sending? <==> |n.batch| == cfg.maxBatch
  {
    ReachableIsSound(cfg, s);
  }

  /** All items of a synchronous call whose export the call does not know to have succeeded lie within one
      chunk of Workers * MaxExportBatchSize inputs. */
  lemma SyncWriteKeepsToItsChunk(cfg: Config, s: State, c: nat, x: Item)
    requires cfg.Valid() && cfg.sync && Reachable(cfg, s) && c < |s.calls| && !s.calls[c].phase.Returned?
    requires x in s.intake.accepted && x.call == c
    ensures ExportedWith(s, x, true) || s.calls[c].start <= x.pos < s.calls[c].start + cfg.workers * cfg.maxBatch
  {
    ReachableIsSound(cfg, s);
    var call, mine := s.calls[c], OfCall(s.intake.accepted, c);
    assert CallOk(cfg, c, call, mine) && Informed(s.intake.sent, s.answers.outcome, c, call);
    OfCallHas(s.intake.accepted, c, x);
    var before := Prepare(c, call.input, 0, call.start);
    if x in before {
      AnsweredIsExported(cfg, s, x, true);
    } else {
      PrepareInOrder(c, call.input, call.start, ChunkEnd(cfg, call));
    }
  }

  // ----- Result channels -----

  /** The batch with item x was handed to the exporter, which answered with `ok`. */
  ghost predicate ExportedWith(s: State, x: Item, ok: bool) {
    exists p :: p in s.crew.handed && x in p.items && p.ticket in s.answers.outcome && s.answers.outcome[p.ticket] == ok
  }

  /** An answered batch was handed over: it left the channel, and no worker has it in hand. */
  lemma AnsweredWasHanded(cfg: Config, s: State, t: nat)
    requires Delivery(s.intake.sent, s.crew) && LedgerOk(cfg, s) && t in s.answers.outcome
    ensures t < |s.intake.sent| && Parcel(t, s.intake.sent[t]) in s.crew.handed
  {
    var sent, m := s.intake.sent, s.crew;
    var p := Parcel(t, sent[t]);
    assert Parcels(sent)[t] == p;
    assert p in multiset(Parcels(sent));
    assert p !in m.batchCh;
    forall w | 0 <= w < |m.workers| ensures !(m.workers[w].Holds() && m.workers[w].parcel == p) {
      assert WorkerOk(cfg.sync, s.answers, m.workers[w]);
    }
    if p in Held(m.workers) {
      var w := HolderOf(m.workers, p);
    }
  }

  lemma {:induction false} HolderOf(workers: seq<Worker>, p: Parcel) returns (w: nat)
    requires p in Held(workers)
    ensures w < |workers| && workers[w].Holds() && workers[w].parcel == p
  {
    if p in HeldBy(workers[0]) {
      w := 0;
    } else {
      w := HolderOf(workers[1..], p);
      w := w + 1;
    }
  }

  lemma AnsweredIsExported(cfg: Config, s: State, x: Item, ok: bool)
    requires Delivery(s.intake.sent, s.crew) && LedgerOk(cfg, s)
    requires Answered(s.intake.sent, s.answers.outcome, x, ok)
    ensures ExportedWith(s, x, ok)
  {
    var t := TicketOf(s.intake.sent, x).value;
    TicketInRange(s.intake.sent, x);
    AnsweredWasHanded(cfg, s, t);
  }

  /** A synchronous write that returned nil had every non-nil item exported without error; one that
      returned an export's error had an item whose export failed. */
  lemma SyncWriteTellsTheTruth(cfg: Config, s: State, c: nat)
    requires cfg.Valid() && cfg.sync && Reachable(cfg, s) && c < |s.calls|
    ensures s.calls[c].phase == Returned(Ok) ==>
      forall pos :: 0 <= pos < |s.calls[c].input| && s.calls[c].input[pos].Some? ==> ExportedWith(s, Item(c, pos), true)
    ensures s.calls[c].phase == Returned(ExportFailed) ==>
      exists pos :: 0 <= pos < |s.calls[c].input| && s.calls[c].input[pos].Some? && ExportedWith(s, Item(c, pos), false)
  {
    ReachableIsSound(cfg, s);
    var call := s.calls[c];
    var all := Prepare(c, call.input, 0, |call.input|);
    assert Informed(s.intake.sent, s.answers.outcome, c, call);
    forall pos | call.phase == Returned(Ok) && 0 <= pos < |call.input| && call.input[pos].Some?
      ensures ExportedWith(s, Item(c, pos), true)
    {
      PrepareHasExactly(c, call.input, 0, |call.input|, Item(c, pos));
      AnsweredIsExported(cfg, s, Item(c, pos), true);
    }
    if call.phase == Returned(ExportFailed) {
      var x :| x in all && Answered(s.intake.sent, s.answers.outcome, x, false);
      PrepareHasExactly(c, call.input, 0, |call.input|, x);
      AnsweredIsExported(cfg, s, x, false);
      assert x == Item(c, x.pos);
    }
  }

  /** A result channel in use carried one value, its batch's answer, and was closed at most once; none
      is in use when writes are asynchronous. */
  lemma OneValueAndOneClose(cfg: Config, s: State, x: Item)
    requires cfg.Valid() && Reachable(cfg, s)
    ensures s.answers.Channel(x).closes <= s.answers.Channel(x).sends <= 1
    ensures s.answers.Channel(x).sends == 1 ==> cfg.sync && x in s.intake.accepted
    ensures s.answers.Channel(x).buffer.Some? ==> ExportedWith(s, x, s.answers.Channel(x).buffer.value)
  {
    ReachableIsSound(cfg, s);
    if x in s.answers.channels {
      assert ChannelOk(s.intake.sent, s.answers.outcome, x, s.answers.channels[x]);
      TicketInRange(s.intake.sent, x);
      AnsweredIsExported(cfg, s, x, s.answers.outcome[TicketOf(s.intake.sent, x).value]);
    }
  }

  // ----- Shutdown -----

  /** All accepted items were handed to the exporter, each batch was answered, and in synchronous mode
      every item's channel got its value and its close. */
  ghost predicate AllDelivered(cfg: Config, s: State) {
    && Exported(s) == multiset(s.intake.accepted)
    && (forall t :: 0 <= t < |s.intake.sent| ==> t in s.answers.outcome)
    && (cfg.sync ==> forall x :: x in s.intake.accepted ==> s.answers.Channel(x).sends == 1 && s.answers.Channel(x).closes == 1)
  }

  lemma NoParcelsNoContents(workers: seq<Worker>)
    requires forall w :: 0 <= w < |workers| ==> !workers[w].Holds()
    ensures HeldList(workers) == []
  {
    NobodyHolds(workers);
    HeldListIsHeld(workers);
    assert |multiset(HeldList(workers))| == |HeldList(workers)|;
  }

  lemma {:induction false} FlattenHas(sent: seq<seq<Item>>, x: Item) returns (t: nat, j: nat)
    requires x in Flatten(sent)
    ensures t < |sent| && j < |sent[t]| && sent[t][j] == x
  {
    var n := |sent| - 1;
    if x in sent[n] {
      t := n;
      j :| 0 <= j < |sent[n]| && sent[n][j] == x;
    } else {
      t, j := FlattenHas(sent[..n], x);
    }
  }

  ghost predicate Quiet(intake: Intake, crew: Crew) {
    && intake.queue == [] && intake.batch == [] && crew.batchCh == []
    && forall w :: 0 <= w < |crew.workers| ==> !crew.workers[w].HasParcel()
  }

  lemma QuietMeansExported(cfg: Config, intake: Intake, crew: Crew)
    requires Flow(cfg, intake) && Delivery(intake.sent, crew) && Quiet(intake, crew)
    ensures intake.accepted == Flatten(intake.sent)
    ensures Contents(crew.handed) == multiset(intake.accepted)
  {
    NoParcelsNoContents(crew.workers);
    SentIsSomewhere(intake.sent, crew);
  }

  lemma QuietMeansSettled(sync: bool, sent: seq<seq<Item>>, workers: seq<Worker>, answers: Answers, t: nat)
    requires Ledger(sync, sent, [], workers, answers) && t < |sent|
    requires forall w :: 0 <= w < |workers| ==> !workers[w].HasParcel()
    ensures t in answers.outcome
    ensures sync ==> forall x :: x in sent[t] ==> answers.Channel(x).sends == 1 && answers.Channel(x).closes == 1
  {
    assert !WithWorker(workers, t);
    assert Settled(sync, sent, answers, t);
    forall j | sync && 0 <= j < |sent[t]| ensures answers.Channel(sent[t][j]).sends == 1 {
      assert ChannelOk(sent, answers.outcome, sent[t][j], answers.channels[sent[t][j]]);
    }
  }

  lemma QuietMeansDelivered(cfg: Config, s: State)
    requires Sound(cfg, s) && Quiet(s.intake, s.crew)
    ensures AllDelivered(cfg, s)
  {
    var sent := s.intake.sent;
    QuietMeansExported(cfg, s.intake, s.crew);
    forall t | 0 <= t < |sent| ensures t in s.answers.outcome {
      QuietMeansSettled(cfg.sync, sent, s.crew.workers, s.answers, t);
    }
    forall x | cfg.sync && x in s.intake.accepted
      ensures s.answers.Channel(x).sends == 1 && s.answers.Channel(x).closes == 1
    {
      var t, j := FlattenHas(sent, x);
      QuietMeansSettled(cfg.sync, sent, s.crew.workers, s.answers, t);
    }
  }

  lemma UnstartedDeliversNothing(cfg: Config, intake: Intake, crew: Crew)
    requires Flow(cfg, intake) && Delivery(intake.sent, crew) && !intake.Started()
    requires forall w :: 0 <= w < |crew.workers| ==> !crew.workers[w].Holds()
    ensures intake.sent == [] && Contents(crew.handed) == multiset{}
  {
    SentIsSomewhere(intake.sent, crew);
  }

  /** Once shutdown's wait for a started processor is over, before it stops the exporter, everything
      accepted was delivered. */
  lemma ShutdownDelivers(cfg: Config, s: State)
    requires cfg.Valid() && Reachable(cfg, s) && s.gate.closer.PastJoin() && s.gate.closer.wasStarted
    ensures AllDelivered(cfg, s)
  {
    ReachableIsSound(cfg, s);
    assert s.crew.workers[0].Exited?;
    QuietMeansDelivered(cfg, s);
  }

  lemma UnstartedAllOrNothing(cfg: Config, s: State)
    requires Sound(cfg, s) && !s.intake.Started()
    ensures AllDelivered(cfg, s) <==> s.intake.accepted == []
  {
    assert forall w :: 0 <= w < |s.crew.workers| ==> s.crew.workers[w].Unborn?;
    UnstartedDeliversNothing(cfg, s.intake, s.crew);
    if s.intake.accepted != [] {
      assert s.intake.accepted[0] in multiset(s.intake.accepted);
    }
  }

  /** When the wait ends, all items were delivered exactly if the processor had been started or had accepted none. */
  lemma DeliveredIffStarted(cfg: Config, s: State)
    requires cfg.Valid() && Reachable(cfg, s) && s.gate.closer.Joining? && Next(cfg, s, CloserStep).Moves?
    ensures AllDelivered(cfg, Next(cfg, s, CloserStep).next) <==> s.intake.Started() || s.intake.accepted == []
  {
    hide AllDelivered, Sound;
    ReachableStep(cfg, s, CloserStep);
    var s' := Next(cfg, s, CloserStep).next;
    if s.intake.Started() {
      ShutdownDelivers(cfg, s');
    } else {
      ReachableIsSound(cfg, s');
      UnstartedAllOrNothing(cfg, s');
    }
  }

  lemma Moved(cfg: Config, s: State, a: Action) returns (s': State)
    requires Reachable(cfg, s) && Next(cfg, s, a).Moves?
    ensures Reachable(cfg, s') && Next(cfg, s, a) == Moves(s')
  {
    s' := Next(cfg, s, a).next;
    ReachableStep(cfg, s, a);
  }

  lemma OneQueued(cfg: Config) returns (s: State)
    requires cfg.Valid() && cfg.hasExporter
    ensures Reachable(cfg, s) && s.gate == Initial(cfg).gate && s.crew == Initial(cfg).crew
    ensures !AnyReader(s.calls)
    ensures s.intake == Intake(NotStarted, [Item(0, 0)], [], [Item(0, 0)], [])
  {
    InitialIsReachable(cfg);
    s := Moved(cfg, Initial(cfg), NewCall([Some(0)]));
    assert cfg.ChunkSize() >= 1;
    assert Prepare(0, [Some(0)], 0, 1) == Prepare(0, [Some(0)], 0, 0) + [Item(0, 0)];
    s := Moved(cfg, s, CallStep(0));
    s := Moved(cfg, s, CallStep(0));
    s := Moved(cfg, s, CallStep(0));
    s := Moved(cfg, s, CallStep(0));
  }

  /** A processor that is shut down without having been started keeps what it accepted. */
  lemma UnstartedKeepsItems(cfg: Config) returns (s: State)
    requires cfg.Valid() && cfg.hasExporter
    ensures Reachable(cfg, s) && s.gate.closer == Joined(false)
    ensures s.intake.accepted == [Item(0, 0)] && Exported(s) == multiset{}
  {
    s := OneQueued(cfg);
    ghost var intake, crew := s.intake, s.crew;
    s := Moved(cfg, s, CloserStep);
    s := Moved(cfg, s, CloserStep);
    s := Moved(cfg, s, CloserStep);
    s := Moved(cfg, s, CloserStep);
    s := Moved(cfg, s, CloserStep);
    assert s.gate.closer == Joining && s.intake == intake && s.crew == crew;
    s := Moved(cfg, s, CloserStep);
  }
}
