/** Synchronous writes: a call learns the exporter's answer for each of its items, and only that. */
module BatchWaiters {
  import opened Wrappers
  import opened BatchProcessor
  import opened BatchCalls
  import opened BatchResults

  // ----- A value is received only by the call that waits for it -----

  /** The call has received the value of its item x, or will never ask for it again. */
  predicate Consumed(call: Call, x: Item) {
    || call.phase.Returned?
    || x.pos < call.start
    || (call.phase.Waiting? && call.phase.i <= |call.phase.items| && x in call.phase.items[..call.phase.i])
  }

  ghost predicate WaitersOk(calls: seq<Call>, channels: map<Item, ResultCh>) {
    forall x :: x in channels && channels[x].buffer.None? ==> x.call < |calls| && Consumed(calls[x.call], x)
  }

  lemma TurnKeepsConsumed(cfg: Config, gate: Gate, queued: nat, answers: Answers, c: nat, call: Call, mine: seq<Item>, x: Item)
    requires CallOk(cfg, c, call, mine) && Consumed(call, x) && x.call == c
    requires CallTurn(cfg, gate, queued, answers, c, call).Becomes?
    ensures Consumed(CallTurn(cfg, gate, queued, answers, c, call).call, x)
  {
    if call.phase.Waiting? {
      PrepareInOrder(c, call.input, call.start, ChunkEnd(cfg, call));
    }
  }

  lemma TakenIsConsumed(cfg: Config, gate: Gate, queued: nat, answers: Answers, c: nat, call: Call, mine: seq<Item>)
    requires CallOk(cfg, c, call, mine)
    requires CallTurn(cfg, gate, queued, answers, c, call).Becomes?
    ensures var turn := CallTurn(cfg, gate, queued, answers, c, call);
      turn.takes.Some? ==> turn.takes.value.call == c && Consumed(turn.call, turn.takes.value)
  {
    if call.phase.Waiting? {
      PrepareInOrder(c, call.input, call.start, ChunkEnd(cfg, call));
      if call.phase.i < |call.phase.items| {
        var items, i := call.phase.items, call.phase.i;
        assert items[..i + 1][i] == items[i];
      }
    }
  }

  /** The item a call waits for still has its value, once it was sent. */
  lemma WaitedIsUnconsumed(cfg: Config, c: nat, call: Call, mine: seq<Item>)
    requires CallOk(cfg, c, call, mine) && call.Waits()
    ensures call.phase.items[call.phase.i].call == c && !Consumed(call, call.phase.items[call.phase.i])
  {
    PrepareInOrder(c, call.input, call.start, ChunkEnd(cfg, call));
  }

  // ----- What a call knows -----

  ghost predicate Answered(sent: seq<seq<Item>>, outcome: map<nat, bool>, x: Item, ok: bool) {
    var t := TicketOf(sent, x);
    t.Some? && t.value in outcome && outcome[t.value] == ok
  }

  ghost predicate AllSucceeded(sent: seq<seq<Item>>, outcome: map<nat, bool>, items: seq<Item>) {
    forall x :: x in items ==> Answered(sent, outcome, x, true)
  }

  ghost predicate SomeFailed(sent: seq<seq<Item>>, outcome: map<nat, bool>, items: seq<Item>) {
    exists x :: x in items && Answered(sent, outcome, x, false)
  }

  /** The chunks a synchronous call left behind were exported, as were the items it waited for; its
      result tells whether all were. */
  ghost predicate Informed(sent: seq<seq<Item>>, outcome: map<nat, bool>, c: nat, call: Call) {
    && call.start <= |call.input|
    && AllSucceeded(sent, outcome, Prepare(c, call.input, 0, call.start))
    && (call.phase.Waiting? ==>
          call.phase.i <= |call.phase.items| && AllSucceeded(sent, outcome, call.phase.items[..call.phase.i]))
    && (call.phase == Returned(Ok) ==> AllSucceeded(sent, outcome, Prepare(c, call.input, 0, |call.input|)))
    && (call.phase == Returned(ExportFailed) ==> SomeFailed(sent, outcome, Prepare(c, call.input, 0, |call.input|)))
  }

  /** Later sends and answers leave what is known as it was. */
  lemma KnowledgeKept(sent: seq<seq<Item>>, sent': seq<seq<Item>>, outcome: map<nat, bool>, outcome': map<nat, bool>, c: nat, call: Call)
    requires sent' == sent || exists b :: sent' == sent + [b]
    requires forall t :: t in outcome ==> t in outcome' && outcome'[t] == outcome[t]
    requires Informed(sent, outcome, c, call)
    ensures Informed(sent', outcome', c, call)
  {
    forall x, ok | Answered(sent, outcome, x, ok) ensures Answered(sent', outcome', x, ok) {
      if sent' != sent {
        var b :| sent' == sent + [b];
        TicketAppend(sent, b, x);
      }
    }
    if call.phase == Returned(ExportFailed) {
      var x :| x in Prepare(c, call.input, 0, |call.input|) && Answered(sent, outcome, x, false);
      assert Answered(sent', outcome', x, false);
    }
  }

  lemma WaitingTurn(cfg: Config, gate: Gate, queued: nat, sent: seq<seq<Item>>, answers: Answers, c: nat, call: Call, mine: seq<Item>)
    requires cfg.sync && CallOk(cfg, c, call, mine) && Informed(sent, answers.outcome, c, call)
    requires call.Waits() && CallTurn(cfg, gate, queued, answers, c, call).Becomes?
    requires var x := call.phase.items[call.phase.i];
      x in answers.channels ==> ChannelOk(sent, answers.outcome, x, answers.channels[x]) && answers.channels[x].buffer.Some?
    ensures Informed(sent, answers.outcome, c, CallTurn(cfg, gate, queued, answers, c, call).call)
  {
    var items, i := call.phase.items, call.phase.i;
    assert Answered(sent, answers.outcome, items[i], answers.Channel(items[i]).buffer.value);
    assert items[..i + 1] == items[..i] + [items[i]];
    PrepareSplit(c, call.input, 0, call.start, ChunkEnd(cfg, call));
    PrepareSplit(c, call.input, 0, ChunkEnd(cfg, call), |call.input|);
    assert items[i] in Prepare(c, call.input, 0, |call.input|);
  }

  lemma TurnInformed(cfg: Config, gate: Gate, queued: nat, sent: seq<seq<Item>>, answers: Answers, c: nat, call: Call, mine: seq<Item>)
    requires cfg.sync && CallOk(cfg, c, call, mine) && Informed(sent, answers.outcome, c, call)
    requires !call.Waits() && CallTurn(cfg, gate, queued, answers, c, call).Becomes?
    ensures Informed(sent, answers.outcome, c, CallTurn(cfg, gate, queued, answers, c, call).call)
  {
    PrepareSplit(c, call.input, 0, call.start, ChunkEnd(cfg, call));
  }

  // ----- Over the steps of the system -----

  ghost predicate KnowledgeOk(cfg: Config, s: State) {
    cfg.sync ==> forall c {:trigger s.calls[c]} :: 0 <= c < |s.calls| ==> Informed(s.intake.sent, s.answers.outcome, c, s.calls[c])
  }

  ghost predicate WaitingOk(cfg: Config, s: State) {
    WaitersOk(s.calls, s.answers.channels) && KnowledgeOk(cfg, s)
  }

  /** What a worker does to the answers: they only grow, and no value disappears. */
  ghost predicate AnswersGrow(was: Answers, now: Answers) {
    && (forall t :: t in was.outcome ==> t in now.outcome && now.outcome[t] == was.outcome[t])
    && (forall x :: x in now.channels && now.channels[x].buffer.None? ==>
          x in was.channels && was.channels[x].buffer.None?)
  }

  lemma WorkerStepGrows(cfg: Config, s: State, w: nat, ok: bool)
    requires LedgerOk(cfg, s) && w < |s.crew.workers| && StepWorker(cfg, s, w, ok).Moves?
    ensures var s' := StepWorker(cfg, s, w, ok).next;
      s'.calls == s.calls && s'.intake == s.intake && AnswersGrow(s.answers, s'.answers)
  {
    var worker := s.crew.workers[w];
    assert WorkerOk(cfg.sync, s.answers, worker);
    if cfg.sync && worker.Signalling? && worker.k < |worker.parcel.items| {
      assert SlotOk(s.answers.channels, worker, worker.k);
    }
  }

  lemma WaitingKept(cfg: Config, s: State, s': State)
    requires WaitingOk(cfg, s) && s'.calls == s.calls && AnswersGrow(s.answers, s'.answers)
    requires s'.intake.sent == s.intake.sent || exists b :: s'.intake.sent == s.intake.sent + [b]
    ensures WaitingOk(cfg, s')
  {
    forall c | cfg.sync && 0 <= c < |s.calls| ensures Informed(s'.intake.sent, s'.answers.outcome, c, s.calls[c]) {
      KnowledgeKept(s.intake.sent, s'.intake.sent, s.answers.outcome, s'.answers.outcome, c, s.calls[c]);
    }
  }

  /** A turn of one call, seen from its own state, the channels and the other calls. */
  lemma WaitersTurn(cfg: Config, s: State, c: nat)
    requires CallsOk(cfg, s.calls, s.intake.accepted) && WaitersOk(s.calls, s.answers.channels)
    requires c < |s.calls| && StepCall(cfg, s, c).Moves?
    ensures WaitersOk(StepCall(cfg, s, c).next.calls, StepCall(cfg, s, c).next.answers.channels)
  {
    var s' := StepCall(cfg, s, c).next;
    var mine := OfCall(s.intake.accepted, c);
    assert CallOk(cfg, c, s.calls[c], mine);
    TakenIsConsumed(cfg, s.gate, |s.intake.queue|, s.answers, c, s.calls[c], mine);
    forall x | x in s'.answers.channels && s'.answers.channels[x].buffer.None?
      ensures x.call < |s'.calls| && Consumed(s'.calls[x.call], x)
    {
      var turn := CallTurn(cfg, s.gate, |s.intake.queue|, s.answers, c, s.calls[c]);
      if turn.takes != Some(x) && x.call == c {
        TurnKeepsConsumed(cfg, s.gate, |s.intake.queue|, s.answers, c, s.calls[c], mine, x);
      }
    }
  }

  lemma KnowledgeTurn(cfg: Config, s: State, c: nat)
    requires CallsOk(cfg, s.calls, s.intake.accepted) && LedgerOk(cfg, s) && WaitingOk(cfg, s)
    requires c < |s.calls| && StepCall(cfg, s, c).Moves?
    ensures KnowledgeOk(cfg, StepCall(cfg, s, c).next)
  {
    var call, mine := s.calls[c], OfCall(s.intake.accepted, c);
    assert CallOk(cfg, c, call, mine);
    if cfg.sync && call.Waits() {
      WaitedIsUnconsumed(cfg, c, call, mine);
      WaitingTurn(cfg, s.gate, |s.intake.queue|, s.intake.sent, s.answers, c, call, mine);
    } else if cfg.sync {
      TurnInformed(cfg, s.gate, |s.intake.queue|, s.intake.sent, s.answers, c, call, mine);
    }
  }

  lemma WaitingNewCall(cfg: Config, s: State, input: seq<Option<int>>)
    requires WaitingOk(cfg, s)
    ensures WaitingOk(cfg, Next(cfg, s, NewCall(input)).next)
  {
  }

  lemma WaitingCallStep(cfg: Config, s: State, c: nat)
    requires Accounted(cfg, s) && LedgerOk(cfg, s) && WaitingOk(cfg, s)
    requires c < |s.calls| && StepCall(cfg, s, c).Moves?
    ensures WaitingOk(cfg, StepCall(cfg, s, c).next)
  {
    WaitersTurn(cfg, s, c);
    KnowledgeTurn(cfg, s, c);
  }

  lemma WaitingGivesUp(cfg: Config, s: State, c: nat)
    requires WaitingOk(cfg, s) && c < |s.calls| && s.calls[c].Waits()
    ensures WaitingOk(cfg, Next(cfg, s, CallGivesUp(c)).next)
  {
  }

  lemma WaitingStep(cfg: Config, s: State, a: Action)
    requires Accounted(cfg, s) && LedgerOk(cfg, s) && WaitingOk(cfg, s) && Next(cfg, s, a).Moves?
    ensures WaitingOk(cfg, Next(cfg, s, a).next)
  {
    hide Accounted, LedgerOk, WaitingOk, StepWorker, StepCall;
    match a {
      case NewCall(input) => WaitingNewCall(cfg, s, input);
      case CallStep(c) => WaitingCallStep(cfg, s, c);
      case CallGivesUp(c) => WaitingGivesUp(cfg, s, c);
      case WorkerStep(w, ok) =>
        WorkerStepGrows(cfg, s, w, ok);
        WaitingKept(cfg, s, Next(cfg, s, a).next);
      case _ => WaitingKept(cfg, s, Next(cfg, s, a).next);
    }
  }
}
