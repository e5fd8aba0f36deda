/** What the queue accepts from each Write call: an in-order prefix of its non-nil input, once each. */
module BatchCalls {
  import opened Wrappers
  import opened BatchProcessor

  // ----- Prepared items -----

  lemma {:induction false} PrepareSplit(c: nat, input: seq<Option<int>>, low: nat, mid: nat, high: nat)
    requires low <= mid <= high <= |input|
    ensures Prepare(c, input, low, high) == Prepare(c, input, low, mid) + Prepare(c, input, mid, high)
    decreases high - mid
  {
    if mid < high {
      PrepareSplit(c, input, low, mid, high - 1);
    }
  }

  /** Exactly the non-nil inputs of the range, in order. */
  ghost predicate InOrder(c: nat, items: seq<Item>, low: nat, high: nat) {
    && (forall i :: 0 <= i < |items| ==> items[i].call == c && low <= items[i].pos < high)
    && (forall i, j :: 0 <= i < j < |items| ==> items[i].pos < items[j].pos)
  }

  lemma {:induction false} PrepareInOrder(c: nat, input: seq<Option<int>>, low: nat, high: nat)
    requires low <= high <= |input|
    ensures InOrder(c, Prepare(c, input, low, high), low, high)
    decreases high - low
  {
    if low < high {
      PrepareInOrder(c, input, low, high - 1);
    }
  }

  lemma {:induction false} PrepareHasExactly(c: nat, input: seq<Option<int>>, low: nat, high: nat, x: Item)
    requires low <= high <= |input|
    ensures x in Prepare(c, input, low, high) <==> x.call == c && low <= x.pos < high && input[x.pos].Some?
    decreases high - low
  {
    if low < high {
      PrepareHasExactly(c, input, low, high - 1, x);
    }
  }

  /** The chunk a Write call prepares from its input, nil items left out. */
  method PrepareChunk(c: nat, input: seq<Option<int>>, low: nat, high: nat) returns (prepared: seq<Item>)
    requires low <= high <= |input|
    ensures prepared == Prepare(c, input, low, high)
    ensures InOrder(c, prepared, low, high)
    ensures forall x :: x in prepared <==> x.call == c && low <= x.pos < high && input[x.pos].Some?
  {
    prepared := [];
    for n := low to high
      invariant prepared == Prepare(c, input, low, n)
    {
      if input[n].Some? {
        prepared := prepared + [Item(c, n)];
      }
    }
    PrepareInOrder(c, input, low, high);
    forall x ensures x in prepared <==> x.call == c && low <= x.pos < high && input[x.pos].Some? {
      PrepareHasExactly(c, input, low, high, x);
    }
  }

  // ----- The items of one call -----

  function OfCall(items: seq<Item>, c: nat): seq<Item> {
    if items == [] then []
    else OfCall(items[..|items| - 1], c) + if items[|items| - 1].call == c then [items[|items| - 1]] else []
  }

  lemma OfCallAppend(items: seq<Item>, x: Item, c: nat)
    ensures OfCall(items + [x], c) == OfCall(items, c) + if x.call == c then [x] else []
  {
    assert (items + [x])[..|items|] == items;
  }

  lemma {:induction false} OfCallHas(items: seq<Item>, c: nat, x: Item)
    ensures x in OfCall(items, c) <==> x in items && x.call == c
  {
    if items != [] {
      OfCallHas(items[..|items| - 1], c, x);
      assert items == items[..|items| - 1] + [items[|items| - 1]];
    }
  }

  /** The chunk a call is at, and how far it got in it. */
  ghost predicate AtChunk(cfg: Config, c: nat, call: Call, items: seq<Item>, i: nat) {
    call.start <= |call.input| && i <= |items| && items == Prepare(c, call.input, call.start, ChunkEnd(cfg, call))
  }

  /** What a call has had accepted so far, by its phase. */
  ghost predicate CallOk(cfg: Config, c: nat, call: Call, mine: seq<Item>) {
    && call.start <= |call.input|
    && var before := Prepare(c, call.input, 0, call.start);
       match call.phase
       case NextChunk => mine == before
       case Enqueuing(items, i) => AtChunk(cfg, c, call, items, i) && mine == before + items[..i]
       case Locked(items, i) => AtChunk(cfg, c, call, items, i) && mine == before + items[..i]
       case Checked(items, i) => AtChunk(cfg, c, call, items, i) && mine == before + items[..i]
       case Waiting(items, i) => cfg.sync && AtChunk(cfg, c, call, items, i) && mine == before + items
       case Returned(r) =>
         && mine <= Prepare(c, call.input, 0, |call.input|)
         && (r.Ok? ==> mine == Prepare(c, call.input, 0, |call.input|))
         && (r.NoExporter? ==> mine == [])
  }

  ghost predicate CallsOk(cfg: Config, calls: seq<Call>, accepted: seq<Item>) {
    && (forall c {:trigger calls[c]} :: 0 <= c < |calls| ==> CallOk(cfg, c, calls[c], OfCall(accepted, c)))
    && (forall x :: x in accepted ==> x.call < |calls|)
  }

  ghost predicate Distinct(items: seq<Item>) {
    forall i, j :: 0 <= i < j < |items| ==> items[i] != items[j]
  }

  /** Whatever a call has queued within its chunk is a prefix of its input. */
  lemma ChunkOfInput(cfg: Config, c: nat, call: Call, i: nat)
    requires call.start <= |call.input|
    ensures var items := Prepare(c, call.input, call.start, ChunkEnd(cfg, call));
      var before := Prepare(c, call.input, 0, call.start);
      && before + items == Prepare(c, call.input, 0, ChunkEnd(cfg, call)) <= Prepare(c, call.input, 0, |call.input|)
      && (i <= |items| ==> before + items[..i] <= before + items)
  {
    PrepareSplit(c, call.input, 0, call.start, ChunkEnd(cfg, call));
    PrepareSplit(c, call.input, 0, ChunkEnd(cfg, call), |call.input|);
  }

  /** An item about to be queued was not queued before. */
  lemma NextItemIsNew(cfg: Config, c: nat, call: Call, accepted: seq<Item>)
    requires call.phase.Checked? && call.phase.i < |call.phase.items|
    requires CallOk(cfg, c, call, OfCall(accepted, c))
    ensures call.phase.items[call.phase.i].call == c && call.phase.items[call.phase.i] !in accepted
  {
    var items, i := call.phase.items, call.phase.i;
    PrepareInOrder(c, call.input, 0, call.start);
    PrepareInOrder(c, call.input, call.start, ChunkEnd(cfg, call));
    OfCallHas(accepted, c, items[i]);
  }

  function Queued(turn: Turn): seq<Item>
    requires turn.Becomes?
  {
    if turn.queues.Some? then [turn.queues.value] else []
  }

  /** A call that returns early keeps a prefix. */
  lemma ReturnOk(cfg: Config, c: nat, call: Call, mine: seq<Item>, result: WriteResult)
    requires CallOk(cfg, c, call, mine) && !call.phase.Returned? && !result.Ok? && !result.NoExporter?
    ensures CallOk(cfg, c, call.(phase := Returned(result)), mine)
  {
    match call.phase
    case NextChunk => ChunkOfInput(cfg, c, call, 0);
    case Waiting(items, _) => ChunkOfInput(cfg, c, call, |items|);
    case Enqueuing(_, i) => ChunkOfInput(cfg, c, call, i);
    case Locked(_, i) => ChunkOfInput(cfg, c, call, i);
    case Checked(_, i) => ChunkOfInput(cfg, c, call, i);
  }

  /** A call whose chunk is all accepted goes on to the next one. */
  lemma ChunkDone(cfg: Config, c: nat, call: Call, mine: seq<Item>)
    requires call.start <= |call.input|
    requires mine == Prepare(c, call.input, 0, call.start) + Prepare(c, call.input, call.start, ChunkEnd(cfg, call))
    ensures CallOk(cfg, c, call.(start := ChunkEnd(cfg, call), phase := NextChunk), mine)
  {
    ChunkOfInput(cfg, c, call, 0);
  }

  /** A call that queues its next item. */
  lemma ItemQueued(cfg: Config, c: nat, call: Call, mine: seq<Item>)
    requires CallOk(cfg, c, call, mine) && call.phase.Checked? && call.phase.i < |call.phase.items|
    ensures var items, i := call.phase.items, call.phase.i;
      CallOk(cfg, c, call.(phase := Enqueuing(items, i + 1)), mine + [items[i]])
  {
    var items, i := call.phase.items, call.phase.i;
    assert items[..i] + [items[i]] == items[..i + 1];
  }

  lemma TurnOk(cfg: Config, gate: Gate, queued: nat, answers: Answers, c: nat, call: Call, mine: seq<Item>)
    requires CallOk(cfg, c, call, mine)
    requires CallTurn(cfg, gate, queued, answers, c, call).Becomes?
    ensures var turn := CallTurn(cfg, gate, queued, answers, c, call);
      && CallOk(cfg, c, turn.call, mine + Queued(turn))
      && turn.call.input == call.input
      && (turn.queues.Some? ==>
            call.phase.Checked? && call.phase.i < |call.phase.items| && turn.queues.value == call.phase.items[call.phase.i])
  {
    var turn := CallTurn(cfg, gate, queued, answers, c, call);
    assert mine + [] == mine;
    if turn.queues.Some? {
      ItemQueued(cfg, c, call, mine);
    } else if turn.call.phase.Returned? && !turn.call.phase.result.Ok? {
      ReturnOk(cfg, c, call, mine, turn.call.phase.result);
    } else if turn.call.phase.NextChunk? {
      ChunkDone(cfg, c, call, mine);
    }
  }

  /** Call c moves on without queueing anything. */
  lemma CallsSet(cfg: Config, calls: seq<Call>, accepted: seq<Item>, c: nat, call: Call)
    requires CallsOk(cfg, calls, accepted) && c < |calls| && CallOk(cfg, c, call, OfCall(accepted, c))
    ensures CallsOk(cfg, calls[c := call], accepted)
  {
    hide CallOk, OfCall;
  }

  lemma CallsKept(cfg: Config, calls: seq<Call>, accepted: seq<Item>, x: Item, d: nat)
    requires CallsOk(cfg, calls, accepted) && d < |calls| && d != x.call
    ensures CallOk(cfg, d, calls[d], OfCall(accepted + [x], d))
  {
    hide CallOk;
    OfCallAppend(accepted, x, d);
    assert OfCall(accepted, d) + [] == OfCall(accepted, d);
  }

  /** Call c moves on and queues an item. */
  lemma CallsQueued(cfg: Config, calls: seq<Call>, accepted: seq<Item>, c: nat, call: Call, x: Item)
    requires CallsOk(cfg, calls, accepted) && c < |calls| && x.call == c
    requires CallOk(cfg, c, call, OfCall(accepted, c) + [x])
    ensures CallsOk(cfg, calls[c := call], accepted + [x])
  {
    hide CallOk;
    OfCallAppend(accepted, x, c);
    forall d | 0 <= d < |calls| && d != c ensures CallOk(cfg, d, calls[d], OfCall(accepted + [x], d)) {
      CallsKept(cfg, calls, accepted, x, d);
    }
  }

  lemma NobodysItems(items: seq<Item>, c: nat)
    requires forall x :: x in items ==> x.call < c
    ensures OfCall(items, c) == []
  {
    if OfCall(items, c) != [] {
      OfCallHas(items, c, OfCall(items, c)[0]);
    }
  }

  lemma CallsNew(cfg: Config, calls: seq<Call>, accepted: seq<Item>, call: Call)
    requires CallsOk(cfg, calls, accepted) && call.start == 0
    requires call.phase.NextChunk? || call.phase == Returned(NoExporter) || (call.phase == Returned(Ok) && call.input == [])
    ensures CallsOk(cfg, calls + [call], accepted)
  {
    NobodysItems(accepted, |calls|);
  }

  /** The items accepted are distinct, and each call has had a prefix of its input accepted. */
  ghost predicate Accounted(cfg: Config, s: State) {
    CallsOk(cfg, s.calls, s.intake.accepted) && Distinct(s.intake.accepted)
  }

  lemma AccountedCallStep(cfg: Config, s: State, c: nat)
    requires Accounted(cfg, s) && c < |s.calls| && StepCall(cfg, s, c).Moves?
    ensures Accounted(cfg, StepCall(cfg, s, c).next)
  {
    hide CallOk, CallTurn, OfCall;
    var call, accepted := s.calls[c], s.intake.accepted;
    TurnOk(cfg, s.gate, |s.intake.queue|, s.answers, c, call, OfCall(accepted, c));
    var turn := CallTurn(cfg, s.gate, |s.intake.queue|, s.answers, c, call);
    if turn.queues.Some? {
      NextItemIsNew(cfg, c, call, accepted);
      CallsQueued(cfg, s.calls, accepted, c, turn.call, turn.queues.value);
    } else {
      assert OfCall(accepted, c) + [] == OfCall(accepted, c);
      CallsSet(cfg, s.calls, accepted, c, turn.call);
    }
  }

  lemma AccountedNewCall(cfg: Config, s: State, input: seq<Option<int>>)
    requires Accounted(cfg, s)
    ensures Accounted(cfg, Next(cfg, s, NewCall(input)).next)
  {
    var calls := Next(cfg, s, NewCall(input)).next.calls;
    CallsNew(cfg, s.calls, s.intake.accepted, calls[|s.calls|]);
  }

  lemma AccountedGivesUp(cfg: Config, s: State, c: nat)
    requires Accounted(cfg, s) && c < |s.calls| && s.calls[c].Waits()
    ensures Accounted(cfg, Next(cfg, s, CallGivesUp(c)).next)
  {
    ReturnOk(cfg, c, s.calls[c], OfCall(s.intake.accepted, c), ContextDone);
    CallsSet(cfg, s.calls, s.intake.accepted, c, s.calls[c].(phase := Returned(ContextDone)));
  }

  lemma AccountedStep(cfg: Config, s: State, a: Action)
    requires Accounted(cfg, s) && Next(cfg, s, a).Moves?
    ensures Accounted(cfg, Next(cfg, s, a).next)
  {
    hide CallOk, CallTurn, OfCall, Distinct;
    match a {
      case NewCall(input) => AccountedNewCall(cfg, s, input);
      case CallStep(c) => AccountedCallStep(cfg, s, c);
      case CallGivesUp(c) => AccountedGivesUp(cfg, s, c);
      case _ =>
    }
  }
}
