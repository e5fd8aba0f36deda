/** What becomes of a Write call: when it can go on, what each of its items meets, and that it ends. */
module BatchWrites {
  import opened Wrappers
  import opened BatchProcessor
  import opened BatchFlow
  import opened BatchCalls
  import opened BatchResults
  import opened BatchWaiters
  import opened BatchRuns
  import BatchProgress

  // ----- The start of a call -----

  /** A write of nothing returns nil at once, one without an exporter an error; any other sets out. */
  lemma WriteBegins(cfg: Config, s: State, input: seq<Option<int>>)
    ensures Next(cfg, s, NewCall(input)).Moves?
    ensures var calls := Next(cfg, s, NewCall(input)).next.calls;
      && |calls| == |s.calls| + 1 && calls[..|s.calls|] == s.calls && calls[|s.calls|].input == input
      && (calls[|s.calls|].phase == Returned(Ok) <==> input == [])
      && (calls[|s.calls|].phase == Returned(NoExporter) <==> input != [] && !cfg.hasExporter)
      && (calls[|s.calls|].phase.Returned? <==> input == [] || !cfg.hasExporter)
  {
  }

  /** A context ends a call exactly while it waits for a result. */
  lemma ContextEndsWaiting(cfg: Config, s: State, c: nat)
    requires c < |s.calls|
    ensures Next(cfg, s, CallGivesUp(c)).Moves? <==> s.calls[c].phase.Waiting? && s.calls[c].phase.i < |s.calls[c].phase.items|
    ensures Next(cfg, s, CallGivesUp(c)).Moves? ==> Next(cfg, s, CallGivesUp(c)).next.calls[c].phase == Returned(ContextDone)
  {
  }

  // ----- When a call can go on -----

  /** A call is held up only by shutdown keeping readers out, with an item to queue, or by a result that has
      not come; never by a full queue. */
  ghost predicate HeldUp(s: State, c: nat)
    requires c < |s.calls|
  {
    match s.calls[c].phase
    case NextChunk => false
    case Enqueuing(items, i) =>
      i < |items| && (s.gate.closer.LockWanted? || s.gate.closer.LockHeld? || s.gate.closer.QueueClosed?)
    case Locked(_, _) => false
    case Checked(_, _) => false
    case Waiting(items, i) => i < |items| && items[i] !in s.answers.channels
    case Returned(_) => true
  }

  lemma ValueIsThere(cfg: Config, s: State, c: nat)
    requires Accounted(cfg, s) && WaitersOk(s.calls, s.answers.channels) && c < |s.calls| && s.calls[c].Waits()
    ensures var x := s.calls[c].phase.items[s.calls[c].phase.i];
      x in s.answers.channels ==> s.answers.channels[x].buffer.Some?
  {
    var x := s.calls[c].phase.items[s.calls[c].phase.i];
    assert CallOk(cfg, c, s.calls[c], OfCall(s.intake.accepted, c));
    if x in s.answers.channels {
      BatchProgress.ValueWaits(cfg, s.calls, s.answers.channels, c, OfCall(s.intake.accepted, c));
    }
  }

  lemma CallMovesIff(cfg: Config, s: State, c: nat)
    requires cfg.Valid() && Reachable(cfg, s) && c < |s.calls|
    ensures Next(cfg, s, CallStep(c)).Moves? <==> !HeldUp(s, c)
  {
    hide Flow, Delivery, LedgerOk, CallOk, Distinct, KnowledgeOk, CrewOk;
    ReachableIsSound(cfg, s);
    assert ReaderOk(s.gate, s.calls[c]);
    if s.calls[c].Waits() {
      hide WaitersOk;
      ValueIsThere(cfg, s, c);
    }
  }

  // ----- What an item meets -----

  /** The three steps of a call that queues its next item, with any steps of others in between: it takes the
      read lock; it is refused if the stop channel is closed by its check; else it is refused if the queue is
      full at its send, and queued if not. */
  lemma ItemOutcome(cfg: Config, s: State, c: nat, checking: State, sending: State)
    requires cfg.Valid() && Reachable(cfg, s) && Reachable(cfg, checking) && Reachable(cfg, sending)
    requires c < |s.calls| && c < |checking.calls| && c < |sending.calls|
    requires s.calls[c].phase.Enqueuing? && s.calls[c].phase.i < |s.calls[c].phase.items| && !HeldUp(s, c)
    requires Next(cfg, s, CallStep(c)).Moves? ==> checking.calls[c] == Next(cfg, s, CallStep(c)).next.calls[c]
    requires Next(cfg, checking, CallStep(c)).Moves? ==> sending.calls[c] == Next(cfg, checking, CallStep(c)).next.calls[c]
    ensures Next(cfg, s, CallStep(c)).Moves? && Next(cfg, checking, CallStep(c)).Moves?
    ensures Next(cfg, s, CallStep(c)).next.intake == s.intake && Next(cfg, checking, CallStep(c)).next.intake == checking.intake
    ensures sending.calls[c].phase == Returned(ShuttingDown) <==> checking.gate.stopClosed
    ensures !checking.gate.stopClosed ==>
              var x := s.calls[c].phase.items[s.calls[c].phase.i];
              && Next(cfg, sending, CallStep(c)).Moves?
              && var after := Next(cfg, sending, CallStep(c)).next;
                 if |sending.intake.queue| == cfg.maxQueue then
                   after.calls[c].phase == Returned(QueueFull) && after.intake == sending.intake
                 else
                   && after.intake.queue == sending.intake.queue + [x] && after.intake.accepted == sending.intake.accepted + [x]
                   && after.calls[c].phase == Enqueuing(s.calls[c].phase.items, s.calls[c].phase.i + 1)
  {
    hide Flow, Delivery, Accounted, LedgerOk, WaitingOk, CrewOk;
    CallMovesIff(cfg, s, c);
    CallMovesIff(cfg, checking, c);
    CallMovesIff(cfg, sending, c);
    QueueWithinCapacity(cfg, sending);
  }

  lemma QueueWithinCapacity(cfg: Config, s: State)
    requires cfg.Valid() && Reachable(cfg, s)
    ensures |s.intake.queue| <= cfg.maxQueue
  {
    ReachableIsSound(cfg, s);
  }

  // ----- Chunks -----

  /** A call that starts a chunk takes exactly the non-nil inputs among the next Workers * MaxExportBatchSize
      ones; at the end of its input it returns nil. */
  lemma ChunkIsFull(cfg: Config, s: State, c: nat)
    requires cfg.Valid() && Reachable(cfg, s) && c < |s.calls| && s.calls[c].phase.NextChunk?
    ensures Next(cfg, s, CallStep(c)).Moves?
    ensures var call, phase := s.calls[c], Next(cfg, s, CallStep(c)).next.calls[c].phase;
      if call.start >= |call.input| then phase == Returned(Ok)
      else phase.Enqueuing? && phase.i == 0 && forall x :: x in phase.items <==>
             x.call == c && call.start <= x.pos < call.start + cfg.workers * cfg.maxBatch && x.pos < |call.input| && call.input[x.pos].Some?
  {
    ReachableIsSound(cfg, s);
    var call := s.calls[c];
    assert CallOk(cfg, c, call, OfCall(s.intake.accepted, c));
    if call.start < |call.input| {
      forall x: Item
        ensures x in Prepare(c, call.input, call.start, ChunkEnd(cfg, call)) <==>
                  x.call == c && call.start <= x.pos < ChunkEnd(cfg, call) && call.input[x.pos].Some?
      {
        PrepareHasExactly(c, call.input, call.start, ChunkEnd(cfg, call), x);
      }
    }
  }

  // ----- The end of a call -----

  /** A bound on the steps a call has left. */
  function StepsLeft(cfg: Config, call: Call): int {
    var later := 8 * (|call.input| - ChunkEnd(cfg, call));
    match call.phase
    case NextChunk => 8 * (|call.input| - call.start) + 1
    case Enqueuing(items, i) => later + |items| + 3 + 3 * (|items| - i)
    case Locked(items, i) => later + |items| + 2 + 3 * (|items| - i)
    case Checked(items, i) => later + |items| + 1 + 3 * (|items| - i)
    case Waiting(items, i) => later + 2 + (|items| - i)
    case Returned(_) => 0
  }

  lemma {:induction false} PrepareSize(c: nat, input: seq<Option<int>>, low: nat, high: nat)
    requires low <= high <= |input|
    ensures |Prepare(c, input, low, high)| <= high - low
    decreases high - low
  {
    if low < high {
      PrepareSize(c, input, low, high - 1);
    }
  }

  lemma TurnLowers(cfg: Config, gate: Gate, queued: nat, answers: Answers, c: nat, call: Call, mine: seq<Item>)
    requires cfg.Valid() && CallOk(cfg, c, call, mine)
    requires CallTurn(cfg, gate, queued, answers, c, call).Becomes?
    ensures 0 <= StepsLeft(cfg, CallTurn(cfg, gate, queued, answers, c, call).call) < StepsLeft(cfg, call)
  {
    if call.phase.NextChunk? {
      hide CallOk;
      SetOutLowers(cfg, gate, queued, answers, c, call, mine);
    } else {
      hide Prepare, Config.ChunkSize;
      ChunkBounds(cfg, call);
    }
  }

  lemma ChunkBounds(cfg: Config, call: Call)
    requires cfg.Valid() && call.start <= |call.input|
    ensures call.start <= ChunkEnd(cfg, call) <= |call.input|
    ensures call.start < |call.input| ==> call.start < ChunkEnd(cfg, call)
  {
    assert cfg.ChunkSize() >= 1;
  }

  lemma SetOutLowers(cfg: Config, gate: Gate, queued: nat, answers: Answers, c: nat, call: Call, mine: seq<Item>)
    requires cfg.Valid() && CallOk(cfg, c, call, mine) && call.phase.NextChunk?
    ensures var turn := CallTurn(cfg, gate, queued, answers, c, call);
      turn.Becomes? && 0 <= StepsLeft(cfg, turn.call) < StepsLeft(cfg, call)
  {
    hide Prepare, Config.ChunkSize;
    ChunkBounds(cfg, call);
    PrepareSize(c, call.input, call.start, ChunkEnd(cfg, call));
  }

  lemma StepsNotNegative(cfg: Config, c: nat, call: Call, mine: seq<Item>)
    requires CallOk(cfg, c, call, mine)
    ensures StepsLeft(cfg, call) >= 0
  {
  }

  /** A step of the call lowers its bound; no other step raises it. */
  lemma StepLowers(cfg: Config, s: State, c: nat, a: Action)
    requires cfg.Valid() && Reachable(cfg, s) && c < |s.calls| && Next(cfg, s, a).Moves?
    ensures c < |Next(cfg, s, a).next.calls|
    ensures 0 <= StepsLeft(cfg, Next(cfg, s, a).next.calls[c])
    ensures StepsLeft(cfg, Next(cfg, s, a).next.calls[c]) + (if a == CallStep(c) then 1 else 0) <= StepsLeft(cfg, s.calls[c])
  {
    hide Flow, Delivery, LedgerOk, WaitingOk, Distinct, CallOk, CallTurn, Control, StepsLeft;
    ReachableIsSound(cfg, s);
    assert CallOk(cfg, c, s.calls[c], OfCall(s.intake.accepted, c));
    StepsNotNegative(cfg, c, s.calls[c], OfCall(s.intake.accepted, c));
    match a {
      case CallStep(d) =>
        if d == c {
          TurnLowers(cfg, s.gate, |s.intake.queue|, s.answers, c, s.calls[c], OfCall(s.intake.accepted, c));
        }
      case CallGivesUp(d) => ReturnedIsDone(cfg, s.calls[d].(phase := Returned(ContextDone)));
      case WorkerStep(w, ok) =>
        hide StepWorker;
        WorkerStepLives(cfg, s, w, ok);
      case _ =>
    }
  }

  lemma ReturnedIsDone(cfg: Config, call: Call)
    requires call.phase.Returned?
    ensures StepsLeft(cfg, call) == 0
  {
  }

  /** Any steps of the system from a given state on. */
  ghost predicate IsPath(cfg: Config, states: seq<State>, actions: seq<Action>) {
    && |states| == |actions| + 1
    && forall i :: 0 <= i < |actions| ==> Next(cfg, states[i], actions[i]) == Moves(states[i + 1])
  }

  function StepsOf(c: nat, actions: seq<Action>, n: nat): nat
    requires n <= |actions|
  {
    if n == 0 then 0 else StepsOf(c, actions, n - 1) + if actions[n - 1] == CallStep(c) then 1 else 0
  }

  lemma {:induction false} PathLowers(cfg: Config, states: seq<State>, actions: seq<Action>, c: nat, n: nat)
    requires cfg.Valid() && IsPath(cfg, states, actions) && Reachable(cfg, states[0]) && c < |states[0].calls| && n <= |actions|
    ensures Reachable(cfg, states[n]) && c < |states[n].calls|
    ensures StepsLeft(cfg, states[n].calls[c]) + StepsOf(c, actions, n) <= StepsLeft(cfg, states[0].calls[c])
    ensures n > 0 ==> StepsLeft(cfg, states[n].calls[c]) >= 0
  {
    if n > 0 {
      hide Next, StepsLeft, Reachable;
      var j := n - 1;
      PathLowers(cfg, states, actions, c, j);
      assert Next(cfg, states[j], actions[j]) == Moves(states[j + 1]);
      ReachableStep(cfg, states[j], actions[j]);
      StepLowers(cfg, states[j], c, actions[j]);
    }
  }

  /** A call that has just set out takes at most 8 steps for each input and one more, whatever else happens. */
  lemma WriteEnds(cfg: Config, states: seq<State>, actions: seq<Action>, c: nat)
    requires cfg.Valid() && IsPath(cfg, states, actions) && Reachable(cfg, states[0]) && c < |states[0].calls|
    requires states[0].calls[c].start == 0 && states[0].calls[c].phase.NextChunk?
    ensures StepsOf(c, actions, |actions|) <= 8 * |states[0].calls[c].input| + 1
  {
    PathLowers(cfg, states, actions, c, |actions|);
  }
}
