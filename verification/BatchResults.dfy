/** Result channels: every exported item's channel gets one value, the exporter's answer, and one close. */
module BatchResults {
  import opened Wrappers
  import opened BatchProcessor
  import opened BatchFlow
  import opened BatchCalls

  // ----- The batch an item was sent in -----

  function TicketOf(sent: seq<seq<Item>>, x: Item): Option<nat> {
    if sent == [] then None
    else
      var t := |sent| - 1;
      if TicketOf(sent[..t], x).Some? then TicketOf(sent[..t], x)
      else if x in sent[t] then Some(t) else None
  }

  lemma TicketAppend(sent: seq<seq<Item>>, b: seq<Item>, x: Item)
    ensures TicketOf(sent, x).Some? ==> TicketOf(sent + [b], x) == TicketOf(sent, x)
  {
    assert (sent + [b])[..|sent|] == sent;
  }

  lemma {:induction false} TicketInRange(sent: seq<seq<Item>>, x: Item)
    ensures TicketOf(sent, x).Some? ==>
      TicketOf(sent, x).value < |sent| && x in sent[TicketOf(sent, x).value] && x in Flatten(sent)
  {
    if sent != [] {
      TicketInRange(sent[..|sent| - 1], x);
    }
  }

  /** In a list of distinct items every item belongs to one batch. */
  lemma {:induction false} TicketOfSent(sent: seq<seq<Item>>, t: nat, j: nat)
    requires Distinct(Flatten(sent)) && t < |sent| && j < |sent[t]|
    ensures TicketOf(sent, sent[t][j]) == Some(t)
    ensures sent[t][j] in Flatten(sent)
    ensures forall i :: 0 <= i < |sent[t]| && i != j ==> sent[t][i] != sent[t][j]
  {
    var n := |sent| - 1;
    var front := Flatten(sent[..n]);
    assert Flatten(sent) == front + sent[n];
    assert forall i :: 0 <= i < |front| ==> Flatten(sent)[i] == front[i];
    if t < n {
      TicketOfSent(sent[..n], t, j);
      assert sent[..n][t] == sent[t];
    } else {
      assert Flatten(sent)[|front| + j] == sent[n][j];
      TicketInRange(sent[..n], sent[n][j]);
      forall i | 0 <= i < |sent[n]| && i != j ensures sent[n][i] != sent[n][j] {
        assert Flatten(sent)[|front| + i] == sent[n][i];
      }
    }
  }

  // ----- The ledger -----

  /** Where a batch's channels stand while its worker signals: done below k, untouched above. */
  ghost predicate SlotOk(channels: map<Item, ResultCh>, worker: Worker, j: nat)
    requires worker.Signalling? && j < |worker.parcel.items|
  {
    var x := worker.parcel.items[j];
    if j < worker.k then x in channels && channels[x].closes == 1
    else if j == worker.k && worker.valueSent then x in channels && channels[x].closes == 0
    else x !in channels
  }

  ghost predicate WorkerOk(sync: bool, answers: Answers, worker: Worker) {
    && (worker.HasParcel() ==> (worker.Signalling? <==> worker.parcel.ticket in answers.outcome))
    && (worker.Signalling? ==>
          && answers.outcome[worker.parcel.ticket] == worker.ok
          && worker.k <= |worker.parcel.items|
          && (sync ==> forall j :: 0 <= j < |worker.parcel.items| ==> SlotOk(answers.channels, worker, j)))
  }

  /** A channel in use belongs to an item whose batch was exported, and carried that batch's answer once. */
  ghost predicate ChannelOk(sent: seq<seq<Item>>, outcome: map<nat, bool>, x: Item, ch: ResultCh) {
    var t := TicketOf(sent, x);
    && t.Some? && t.value in outcome
    && ch.sends == 1 && ch.closes <= 1
    && (ch.buffer.Some? ==> ch.buffer.value == outcome[t.value])
  }

  /** All of the batch's channels were used and closed. */
  ghost predicate Settled(sync: bool, sent: seq<seq<Item>>, answers: Answers, t: nat)
    requires t < |sent|
  {
    && t in answers.outcome
    && (sync ==> forall j :: 0 <= j < |sent[t]| ==> sent[t][j] in answers.channels && answers.channels[sent[t][j]].closes == 1)
  }

  ghost predicate WithWorker(workers: seq<Worker>, t: nat) {
    exists w :: 0 <= w < |workers| && workers[w].HasParcel() && workers[w].parcel.ticket == t
  }

  ghost predicate Ledger(sync: bool, sent: seq<seq<Item>>, batchCh: seq<Parcel>, workers: seq<Worker>, answers: Answers) {
    && (forall t :: t in answers.outcome ==> t + |batchCh| < |sent|)
    && (forall x :: x in answers.channels ==> sync && ChannelOk(sent, answers.outcome, x, answers.channels[x]))
    && (forall w :: 0 <= w < |workers| ==> WorkerOk(sync, answers, workers[w]))
    && (forall t :: 0 <= t && t + |batchCh| < |sent| ==> WithWorker(workers, t) || Settled(sync, sent, answers, t))
  }

  /** The items sent are distinct, and workers have different batches from among them. */
  ghost predicate Apart(sent: seq<seq<Item>>, batchCh: seq<Parcel>, workers: seq<Worker>) {
    Distinct(Flatten(sent)) && WorkersApart(sent, batchCh, workers)
  }

  lemma LedgerSend(sync: bool, sent: seq<seq<Item>>, batchCh: seq<Parcel>, workers: seq<Worker>, answers: Answers, b: seq<Item>, p: Parcel)
    requires Ledger(sync, sent, batchCh, workers, answers)
    ensures Ledger(sync, sent + [b], batchCh + [p], workers, answers)
  {
    forall x | x in answers.channels ensures ChannelOk(sent + [b], answers.outcome, x, answers.channels[x]) {
      TicketAppend(sent, b, x);
    }
  }

  lemma WithWorkerKept(workers: seq<Worker>, w: nat, worker: Worker, t: nat)
    requires w < |workers| && WithWorker(workers, t)
    requires workers[w].HasParcel() ==> worker.HasParcel() && worker.parcel == workers[w].parcel
    ensures WithWorker(workers[w := worker], t)
  {
    var v :| 0 <= v < |workers| && workers[v].HasParcel() && workers[v].parcel.ticket == t;
    assert workers[w := worker][v].HasParcel();
  }

  lemma LedgerTake(sync: bool, sent: seq<seq<Item>>, batchCh: seq<Parcel>, workers: seq<Worker>, answers: Answers, w: nat)
    requires ChannelIsTail(sent, batchCh) && batchCh != []
    requires Ledger(sync, sent, batchCh, workers, answers) && w < |workers| && workers[w].Idle?
    ensures Ledger(sync, sent, batchCh[1..], workers[w := Worker.Received(batchCh[0])], answers)
  {
    var worker := Worker.Received(batchCh[0]);
    assert batchCh[0] == Parcels(sent)[|sent| - |batchCh|];
    forall t: nat | t + |batchCh[1..]| < |sent| ensures WithWorker(workers[w := worker], t) || Settled(sync, sent, answers, t) {
      if t == |sent| - |batchCh| {
        assert workers[w := worker][w].HasParcel();
      } else if WithWorker(workers, t) {
        WithWorkerKept(workers, w, worker, t);
      }
    }
  }

  /** A worker that moves on without touching the answers. */
  lemma LedgerKept(sync: bool, sent: seq<seq<Item>>, batchCh: seq<Parcel>, workers: seq<Worker>, answers: Answers, w: nat, worker: Worker)
    requires Ledger(sync, sent, batchCh, workers, answers) && w < |workers|
    requires workers[w].HasParcel() <==> worker.HasParcel()
    requires worker.HasParcel() ==> worker.parcel == workers[w].parcel
    requires WorkerOk(sync, answers, worker)
    ensures Ledger(sync, sent, batchCh, workers[w := worker], answers)
  {
    forall t: nat | t + |batchCh| < |sent| ensures WithWorker(workers[w := worker], t) || Settled(sync, sent, answers, t) {
      if WithWorker(workers, t) {
        WithWorkerKept(workers, w, worker, t);
      }
    }
  }

  /** A worker that is through with its batch. */
  lemma LedgerDone(sync: bool, sent: seq<seq<Item>>, batchCh: seq<Parcel>, workers: seq<Worker>, answers: Answers, w: nat)
    requires Apart(sent, batchCh, workers) && Ledger(sync, sent, batchCh, workers, answers)
    requires w < |workers| && workers[w].Signalling? && workers[w].k >= |workers[w].parcel.items|
    ensures Ledger(sync, sent, batchCh, workers[w := Idle], answers)
  {
    var mine := workers[w].parcel.ticket;
    assert WorkerOk(sync, answers, workers[w]);
    assert Settled(sync, sent, answers, mine) by {
      forall j | sync && 0 <= j < |sent[mine]|
        ensures sent[mine][j] in answers.channels && answers.channels[sent[mine][j]].closes == 1
      {
        assert SlotOk(answers.channels, workers[w], j);
      }
    }
    forall t: nat | t + |batchCh| < |sent| ensures WithWorker(workers[w := Idle], t) || Settled(sync, sent, answers, t) {
      if t != mine && WithWorker(workers, t) {
        var v :| 0 <= v < |workers| && workers[v].HasParcel() && workers[v].parcel.ticket == t;
        assert workers[w := Idle][v].HasParcel();
      }
    }
  }

  /** The exporter answered for a worker's batch. */
  lemma LedgerExported(sync: bool, sent: seq<seq<Item>>, batchCh: seq<Parcel>, workers: seq<Worker>, answers: Answers, w: nat, ok: bool)
    requires Apart(sent, batchCh, workers) && Ledger(sync, sent, batchCh, workers, answers)
    requires w < |workers| && workers[w].Exporting?
    ensures var p := workers[w].parcel;
      Ledger(sync, sent, batchCh, workers[w := Signalling(p, 0, ok, false)], answers.(outcome := answers.outcome[p.ticket := ok]))
  {
    var p := workers[w].parcel;
    var worker := Signalling(p, 0, ok, false);
    var answers' := answers.(outcome := answers.outcome[p.ticket := ok]);
    assert WorkerOk(sync, answers, workers[w]);
    assert WorkerOk(sync, answers', worker) by {
      forall j | sync && 0 <= j < |p.items| ensures SlotOk(answers'.channels, worker, j) {
        TicketOfSent(sent, p.ticket, j);
      }
    }
    forall v | 0 <= v < |workers| && v != w ensures WorkerOk(sync, answers', workers[v]) {
      assert WorkerOk(sync, answers, workers[v]);
    }
    forall t: nat | t + |batchCh| < |sent| ensures WithWorker(workers[w := worker], t) || Settled(sync, sent, answers', t) {
      if WithWorker(workers, t) {
        WithWorkerKept(workers, w, worker, t);
      }
    }
  }

  /** A worker's batch and position do not meet another worker's. */
  lemma OtherSlots(sent: seq<seq<Item>>, batchCh: seq<Parcel>, workers: seq<Worker>, v: nat, w: nat, i: nat, j: nat)
    requires Apart(sent, batchCh, workers) && v < |workers| && w < |workers| && v != w
    requires workers[v].HasParcel() && workers[w].HasParcel()
    requires i < |workers[v].parcel.items| && j < |workers[w].parcel.items|
    ensures workers[v].parcel.items[i] != workers[w].parcel.items[j]
  {
    TicketOfSent(sent, workers[v].parcel.ticket, i);
    TicketOfSent(sent, workers[w].parcel.ticket, j);
  }

  lemma OtherWorkerKept(sent: seq<seq<Item>>, batchCh: seq<Parcel>, workers: seq<Worker>, answers: Answers, w: nat, ch: ResultCh, v: nat)
    requires Apart(sent, batchCh, workers) && v < |workers| && w < |workers| && v != w
    requires workers[w].Signalling? && workers[w].k < |workers[w].parcel.items|
    requires WorkerOk(true, answers, workers[v])
    ensures WorkerOk(true, answers.SetChannel(workers[w].parcel.items[workers[w].k], ch), workers[v])
  {
    var item := workers[w].parcel.items[workers[w].k];
    if workers[v].Signalling? {
      forall j | 0 <= j < |workers[v].parcel.items|
        ensures SlotOk(answers.SetChannel(item, ch).channels, workers[v], j)
      {
        assert SlotOk(answers.channels, workers[v], j);
        OtherSlots(sent, batchCh, workers, v, w, j, workers[w].k);
      }
    }
  }

  /** A worker that sends on or closes the channel of the item it is at. */
  lemma LedgerSlot(sent: seq<seq<Item>>, batchCh: seq<Parcel>, workers: seq<Worker>, answers: Answers, w: nat, worker: Worker, ch: ResultCh)
    requires Apart(sent, batchCh, workers) && Ledger(true, sent, batchCh, workers, answers) && w < |workers|
    requires workers[w].Signalling? && workers[w].k < |workers[w].parcel.items|
    requires worker.Signalling? && worker.parcel == workers[w].parcel
    requires var item := workers[w].parcel.items[workers[w].k];
      ChannelOk(sent, answers.outcome, item, ch) && WorkerOk(true, answers.SetChannel(item, ch), worker)
    ensures Ledger(true, sent, batchCh, workers[w := worker], answers.SetChannel(workers[w].parcel.items[workers[w].k], ch))
  {
    var item := workers[w].parcel.items[workers[w].k];
    var answers' := answers.SetChannel(item, ch);
    forall v | 0 <= v < |workers| && v != w ensures WorkerOk(true, answers', workers[v]) {
      OtherWorkerKept(sent, batchCh, workers, answers, w, ch, v);
    }
    forall t: nat | t + |batchCh| < |sent| ensures WithWorker(workers[w := worker], t) || Settled(true, sent, answers', t) {
      if WithWorker(workers, t) {
        WithWorkerKept(workers, w, worker, t);
      } else {
        assert workers[w].HasParcel();
        TicketOfSent(sent, workers[w].parcel.ticket, workers[w].k);
        forall j | 0 <= j < |sent[t]| ensures sent[t][j] != item {
          TicketOfSent(sent, t, j);
        }
      }
    }
  }

  lemma LedgerValueSent(sent: seq<seq<Item>>, batchCh: seq<Parcel>, workers: seq<Worker>, answers: Answers, w: nat)
    requires Apart(sent, batchCh, workers) && Ledger(true, sent, batchCh, workers, answers) && w < |workers|
    requires workers[w].Signalling? && workers[w].k < |workers[w].parcel.items| && !workers[w].valueSent
    ensures var worker := workers[w];
      var item := worker.parcel.items[worker.k];
      && answers.Channel(item) == FRESH
      && Ledger(true, sent, batchCh, workers[w := worker.(valueSent := true)], answers.SetChannel(item, ResultCh(Some(worker.ok), 1, 0)))
  {
    var worker := workers[w];
    var item, ch := worker.parcel.items[worker.k], ResultCh(Some(worker.ok), 1, 0);
    TicketOfSent(sent, worker.parcel.ticket, worker.k);
    assert WorkerOk(true, answers, worker) && SlotOk(answers.channels, worker, worker.k);
    forall j | 0 <= j < |worker.parcel.items|
      ensures SlotOk(answers.SetChannel(item, ch).channels, worker.(valueSent := true), j)
    {
      assert SlotOk(answers.channels, worker, j);
    }
    LedgerSlot(sent, batchCh, workers, answers, w, worker.(valueSent := true), ch);
  }

  lemma LedgerClosed(sent: seq<seq<Item>>, batchCh: seq<Parcel>, workers: seq<Worker>, answers: Answers, w: nat)
    requires Apart(sent, batchCh, workers) && Ledger(true, sent, batchCh, workers, answers) && w < |workers|
    requires workers[w].Signalling? && workers[w].k < |workers[w].parcel.items| && workers[w].valueSent
    ensures var worker := workers[w];
      var item := worker.parcel.items[worker.k];
      var ch := answers.Channel(item);
      && ch.closes == 0
      && Ledger(true, sent, batchCh, workers[w := worker.(k := worker.k + 1, valueSent := false)],
                answers.SetChannel(item, ch.(closes := 1)))
  {
    var worker := workers[w];
    var item := worker.parcel.items[worker.k];
    var ch := answers.Channel(item).(closes := 1);
    var moved := worker.(k := worker.k + 1, valueSent := false);
    TicketOfSent(sent, worker.parcel.ticket, worker.k);
    assert WorkerOk(true, answers, worker) && SlotOk(answers.channels, worker, worker.k);
    forall j | 0 <= j < |worker.parcel.items| ensures SlotOk(answers.SetChannel(item, ch).channels, moved, j) {
      assert SlotOk(answers.channels, worker, j);
    }
    LedgerSlot(sent, batchCh, workers, answers, w, moved, ch);
  }

  /** A waiter that takes an item's value leaves the ledger in order. */
  lemma LedgerValueTaken(sync: bool, sent: seq<seq<Item>>, batchCh: seq<Parcel>, workers: seq<Worker>, answers: Answers, x: Item)
    requires Ledger(sync, sent, batchCh, workers, answers) && answers.Channel(x).buffer.Some?
    ensures Ledger(sync, sent, batchCh, workers, answers.Take(Some(x)))
  {
    var answers' := answers.Take(Some(x));
    forall w | 0 <= w < |workers| ensures WorkerOk(sync, answers', workers[w]) {
      var worker := workers[w];
      assert WorkerOk(sync, answers, worker);
      if sync && worker.Signalling? {
        forall j | 0 <= j < |worker.parcel.items| ensures SlotOk(answers'.channels, worker, j) {
          assert SlotOk(answers.channels, worker, j);
        }
      }
    }
    forall t: nat | t + |batchCh| < |sent| ensures WithWorker(workers, t) || Settled(sync, sent, answers', t) {
      assert WithWorker(workers, t) || Settled(sync, sent, answers, t);
    }
  }

  // ----- The ledger over the steps of the system -----

  ghost predicate LedgerOk(cfg: Config, s: State) {
    Ledger(cfg.sync, s.intake.sent, s.crew.batchCh, s.crew.workers, s.answers)
  }

  lemma SentApart(cfg: Config, s: State)
    requires Flow(cfg, s.intake) && Delivery(s.intake.sent, s.crew) && Distinct(s.intake.accepted)
    ensures Apart(s.intake.sent, s.crew.batchCh, s.crew.workers)
  {
    var front := Flatten(s.intake.sent);
    assert forall i :: 0 <= i < |front| ==> front[i] == s.intake.accepted[i];
  }

  lemma LedgerSignalStep(cfg: Config, s: State, w: nat, ok: bool)
    requires Apart(s.intake.sent, s.crew.batchCh, s.crew.workers) && LedgerOk(cfg, s)
    requires w < |s.crew.workers| && s.crew.workers[w].Signalling? && StepWorker(cfg, s, w, ok).Moves?
    ensures LedgerOk(cfg, StepWorker(cfg, s, w, ok).next)
  {
    var sent, m := s.intake.sent, s.crew;
    var worker := m.workers[w];
    assert WorkerOk(cfg.sync, s.answers, worker);
    if worker.k >= |worker.parcel.items| {
      LedgerDone(cfg.sync, sent, m.batchCh, m.workers, s.answers, w);
    } else if !cfg.sync {
      LedgerKept(cfg.sync, sent, m.batchCh, m.workers, s.answers, w, worker.(k := worker.k + 1, valueSent := false));
    } else if worker.valueSent {
      LedgerClosed(sent, m.batchCh, m.workers, s.answers, w);
    } else {
      LedgerValueSent(sent, m.batchCh, m.workers, s.answers, w);
    }
  }

  lemma LedgerWorkerStep(cfg: Config, s: State, w: nat, ok: bool)
    requires Flow(cfg, s.intake) && Delivery(s.intake.sent, s.crew) && Distinct(s.intake.accepted) && LedgerOk(cfg, s)
    requires w < |s.crew.workers| && StepWorker(cfg, s, w, ok).Moves?
    ensures LedgerOk(cfg, StepWorker(cfg, s, w, ok).next)
  {
    SentApart(cfg, s);
    var sent, m := s.intake.sent, s.crew;
    assert WorkerOk(cfg.sync, s.answers, m.workers[w]);
    match m.workers[w] {
      case Idle =>
        if m.batchCh != [] {
          LedgerTake(cfg.sync, sent, m.batchCh, m.workers, s.answers, w);
        } else {
          LedgerKept(cfg.sync, sent, m.batchCh, m.workers, s.answers, w, Exited);
        }
      case Received(p) => LedgerKept(cfg.sync, sent, m.batchCh, m.workers, s.answers, w, Ready(p));
      case Ready(p) => LedgerKept(cfg.sync, sent, m.batchCh, m.workers, s.answers, w, Exporting(p));
      case Exporting(p) => LedgerExported(cfg.sync, sent, m.batchCh, m.workers, s.answers, w, ok);
      case Signalling(_, _, _, _) => LedgerSignalStep(cfg, s, w, ok);
      case _ =>
    }
  }

  lemma LedgerCallStep(cfg: Config, s: State, c: nat)
    requires LedgerOk(cfg, s) && c < |s.calls| && StepCall(cfg, s, c).Moves?
    ensures LedgerOk(cfg, StepCall(cfg, s, c).next)
  {
    var turn := CallTurn(cfg, s.gate, |s.intake.queue|, s.answers, c, s.calls[c]);
    if turn.takes.Some? {
      LedgerValueTaken(cfg.sync, s.intake.sent, s.crew.batchCh, s.crew.workers, s.answers, turn.takes.value);
    }
  }

  lemma LedgerStart(sync: bool, sent: seq<seq<Item>>, batchCh: seq<Parcel>, workers: seq<Worker>, answers: Answers)
    requires Ledger(sync, sent, batchCh, workers, answers)
    requires forall w :: 0 <= w < |workers| ==> workers[w].Unborn?
    ensures Ledger(sync, sent, batchCh, seq(|workers|, _ => Idle), answers)
  {
    forall t: nat | t + |batchCh| < |sent| ensures Settled(sync, sent, answers, t) {
      assert !WithWorker(workers, t);
    }
  }

  lemma LedgerStep(cfg: Config, s: State, a: Action)
    requires Control(cfg, s) && Flow(cfg, s.intake) && Delivery(s.intake.sent, s.crew) && Distinct(s.intake.accepted)
    requires LedgerOk(cfg, s) && Next(cfg, s, a).Moves?
    ensures LedgerOk(cfg, Next(cfg, s, a).next)
  {
    hide Ledger, Delivery, Flow, Distinct, StepWorker;
    match a {
      case CallStep(c) => LedgerCallStep(cfg, s, c);
      case Start => LedgerStart(cfg.sync, s.intake.sent, s.crew.batchCh, s.crew.workers, s.answers);
      case BuilderProceed =>
        LedgerSend(cfg.sync, s.intake.sent, s.crew.batchCh, s.crew.workers, s.answers, s.intake.batch,
                   Parcel(|s.intake.sent|, s.intake.batch));
      case WorkerStep(w, ok) => LedgerWorkerStep(cfg, s, w, ok);
      case _ =>
    }
  }
}
