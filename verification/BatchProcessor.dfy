/**
 The batch item processor as a system of atomic steps: concurrent Write calls, one batch builder,
 a pool of workers, the flush timer and the goroutine that shuts everything down, in any interleaving.

 Blocking operations are steps that cannot be taken yet; operations Go answers with a panic have the
 result `Panics`.
 */
module BatchProcessor {
  import opened Wrappers

  datatype Config = Config(maxQueue: nat, maxBatch: nat, workers: nat, sync: bool, hasExporter: bool) {
    /** The options NewBatchItemProcessor accepts. */
    predicate Valid() {
      maxBatch <= maxQueue && workers != 0 && maxBatch >= 1
    }

    function ChunkSize(): nat { workers * maxBatch }
  }

  /** A queued item: the call that wrote it and its index in that call's input. */
  datatype Item = Item(call: nat, pos: nat)

  /** A batch in flight; the ticket is its place in the order of sends. */
  datatype Parcel = Parcel(ticket: nat, items: seq<Item>)

  datatype WriteResult = Ok | NoExporter | ShuttingDown | QueueFull | ExportFailed | ContextDone

  /** Where a Write call stands.  Locked and Checked hold the read lock, before and after the stop check. */
  datatype Phase =
    | NextChunk
    | Enqueuing(items: seq<Item>, i: nat)
    | Locked(items: seq<Item>, i: nat)
    | Checked(items: seq<Item>, i: nat)
    | Waiting(items: seq<Item>, i: nat)
    | Returned(result: WriteResult)

  /** A call: its input, with nil items as None, the start of its current chunk, and its phase. */
  datatype Call = Call(input: seq<Option<int>>, start: nat, phase: Phase) {
    predicate HoldsReadLock() { phase.Locked? || phase.Checked? }

    predicate Waits() { phase.Waiting? && phase.i < |phase.items| }
  }

  /** An item's result channel of capacity 1, with the number of sends and closes so far. */
  datatype ResultCh = ResultCh(buffer: Option<bool>, sends: nat, closes: nat)

  const FRESH: ResultCh := ResultCh(None, 0, 0)

  datatype Builder = NotStarted | Selecting | Sending | Resetting | SendingLast | Closing | Finished

  /** Signalling holds the index of the item being signalled, the export's success, and whether the
      value was already sent. */
  datatype Worker =
    | Unborn
    | Idle
    | Received(parcel: Parcel)
    | Ready(parcel: Parcel)
    | Exporting(parcel: Parcel)
    | Signalling(parcel: Parcel, k: nat, ok: bool, valueSent: bool)
    | Exited
  {
    predicate HasParcel() { Received? || Ready? || Exporting? || Signalling? }

    /** Holds a batch the exporter has not been called with. */
    predicate Holds() { Received? || Ready? }
  }

  datatype Timer = Armed | Fired | Drained | Stopped

  /** The shutdown goroutine; LockWanted waits for the write lock and keeps new readers out, as Go's
      RWMutex does; Joined and later remember whether the processor had been started when the
      wait for its goroutines ended. */
  datatype Closer =
    | Running
    | StopClosed
    | LockWanted
    | LockHeld
    | QueueClosed
    | Joining
    | Joined(wasStarted: bool)
    | TimerStopped(wasStarted: bool)
    | ExporterDown(wasStarted: bool)
  {
    predicate HoldsWriteLock() { LockHeld? || QueueClosed? }

    predicate KeepsReadersOut() { LockWanted? || HoldsWriteLock() }

    predicate PastJoin() { Joined? || TimerStopped? || ExporterDown? }
  }

  /** The stop channel, whether the queue was closed, and the goroutine that closes them. */
  datatype Gate = Gate(stopClosed: bool, queueClosed: bool, closer: Closer)

  /** The queue and the batch builder; `accepted` and `sent` record every item queued and every batch sent. */
  datatype Intake = Intake(builder: Builder, queue: seq<Item>, batch: seq<Item>, accepted: seq<Item>, sent: seq<seq<Item>>) {
    predicate Started() { !builder.NotStarted? }

    function Accept(item: Option<Item>): Intake {
      if item.None? then this else this.(queue := queue + [item.value], accepted := accepted + [item.value])
    }
  }

  /** The batch channel and the workers; `handed` records the batches the exporter was called with. */
  datatype Crew = Crew(batchCh: seq<Parcel>, closed: bool, workers: seq<Worker>, handed: seq<Parcel>) {
    function SetWorker(w: nat, worker: Worker): Crew
      requires w < |workers|
    {
      this.(workers := workers[w := worker])
    }
  }

  /** The result channels in use, and the exporter's answer for each batch. */
  datatype Answers = Answers(channels: map<Item, ResultCh>, outcome: map<nat, bool>) {
    function Channel(item: Item): ResultCh {
      if item in channels then channels[item] else FRESH
    }

    function SetChannel(item: Item, ch: ResultCh): Answers {
      this.(channels := channels[item := ch])
    }

    /** The buffered value of the item's channel has been received. */
    function Take(item: Option<Item>): Answers {
      if item.None? then this else SetChannel(item.value, Channel(item.value).(buffer := None))
    }
  }

  datatype State = State(calls: seq<Call>, gate: Gate, intake: Intake, crew: Crew, answers: Answers, timer: Timer)

  datatype Step = Blocked | Panics | Moves(next: State)

  function Initial(cfg: Config): State {
    State([], Gate(false, false, Running), Intake(NotStarted, [], [], [], []),
          Crew([], false, seq(cfg.workers, _ => Unborn), []), Answers(map[], map[]), Armed)
  }

  // ----- Write -----

  function Min(a: nat, b: nat): nat { if a <= b then a else b }

  /** The items of call c for the non-nil inputs from low up to high. */
  function Prepare(c: nat, input: seq<Option<int>>, low: nat, high: nat): seq<Item>
    requires low <= high <= |input|
    decreases high - low
  {
    if low == high then []
    else Prepare(c, input, low, high - 1) + if input[high - 1].Some? then [Item(c, high - 1)] else []
  }

  function ChunkEnd(cfg: Config, call: Call): nat {
    Min(call.start + cfg.ChunkSize(), |call.input|)
  }

  /** What a call does next: wait, panic, or go on, queueing an item or taking an item's result on the way. */
  datatype Turn =
    | Stays
    | Breaks
    | Becomes(call: Call, queues: Option<Item>, takes: Option<Item>)

  function Turned(call: Call, phase: Phase): Turn {
    Becomes(call.(phase := phase), None, None)
  }

  /** On to the next chunk of the input; the end of the input ends the call there. */
  function NextChunkOf(cfg: Config, call: Call): Turn {
    Becomes(call.(start := ChunkEnd(cfg, call), phase := NextChunk), None, None)
  }

  /** The next step of call c, when it does not give up waiting and the queue holds `queued` items. */
  function CallTurn(cfg: Config, gate: Gate, queued: nat, answers: Answers, c: nat, call: Call): Turn {
    match call.phase
    case NextChunk =>
      if call.start >= |call.input| then Turned(call, Returned(Ok))
      else Turned(call, Enqueuing(Prepare(c, call.input, call.start, ChunkEnd(cfg, call)), 0))
    case Enqueuing(items, i) =>
      if i < |items| then if gate.closer.KeepsReadersOut() then Stays else Turned(call, Locked(items, i))
      else if cfg.sync then Turned(call, Waiting(items, 0))
      else NextChunkOf(cfg, call)
    case Locked(items, i) =>
      Turned(call, if gate.stopClosed then Returned(ShuttingDown) else Checked(items, i))
    case Checked(items, i) =>
      if i >= |items| then Stays
      else if gate.queueClosed then Breaks
      else if queued < cfg.maxQueue then Becomes(call.(phase := Enqueuing(items, i + 1)), Some(items[i]), None)
      else Turned(call, Returned(QueueFull))
    case Waiting(items, i) =>
      if i >= |items| then NextChunkOf(cfg, call)
      else
        var ch := answers.Channel(items[i]);
        if ch.buffer.Some? then
          Becomes(call.(phase := if ch.buffer.value then Waiting(items, i + 1) else Returned(ExportFailed)), None, Some(items[i]))
        else if ch.closes > 0 then Turned(call, Waiting(items, i + 1))
        else Stays
    case Returned(_) => Stays
  }

  function StepCall(cfg: Config, s: State, c: nat): Step
    requires c < |s.calls|
  {
    match CallTurn(cfg, s.gate, |s.intake.queue|, s.answers, c, s.calls[c])
    case Stays => Blocked
    case Breaks => Panics
    case Becomes(call, queues, takes) =>
      Moves(s.(calls := s.calls[c := call], intake := s.intake.Accept(queues), answers := s.answers.Take(takes)))
  }

  // ----- The batch builder -----

  /** The select branch of the queue: an item, or the end of a closed queue. */
  function StepBuilderQueue(cfg: Config, s: State): Step {
    var n := s.intake;
    if !n.builder.Selecting? then Blocked
    else if n.queue != [] then
      var batch := n.batch + [n.queue[0]];
      var builder := if |batch| >= cfg.maxBatch then Sending else Selecting;
      Moves(s.(intake := n.(queue := n.queue[1..], batch := batch, builder := builder)))
    else if s.gate.queueClosed then
      Moves(s.(intake := n.(builder := if n.batch != [] then SendingLast else Closing)))
    else Blocked
  }

  /** The select branch of the timer. */
  function StepBuilderTimer(s: State): Step {
    var n := s.intake;
    if n.builder.Selecting? && s.timer.Fired? then
      Moves(s.(timer := Drained, intake := n.(builder := if n.batch != [] then Sending else Resetting)))
    else Blocked
  }

  function Send(cfg: Config, s: State, next: Builder): Step {
    var n, m := s.intake, s.crew;
    if m.closed then Panics
    else if |m.batchCh| >= cfg.workers then Blocked
    else Moves(s.(intake := n.(sent := n.sent + [n.batch], batch := [], builder := next),
                  crew := m.(batchCh := m.batchCh + [Parcel(|n.sent|, n.batch)])))
  }

  /** What the builder does after its select. */
  function StepBuilderProceed(cfg: Config, s: State): Step {
    match s.intake.builder
    case Sending => Send(cfg, s, Selecting)
    case SendingLast => Send(cfg, s, Closing)
    case Resetting => Moves(s.(timer := Armed, intake := s.intake.(builder := Selecting)))
    case Closing =>
      if s.crew.closed then Panics
      else Moves(s.(crew := s.crew.(closed := true), intake := s.intake.(builder := Finished)))
    case _ => Blocked
  }

  // ----- The workers -----

  /** The next step of a worker; `ok` is the exporter's answer where it is asked for one. */
  function StepWorker(cfg: Config, s: State, w: nat, ok: bool): Step
    requires w < |s.crew.workers|
  {
    var m := s.crew;
    match m.workers[w]
    case Unborn => Blocked
    case Exited => Blocked
    case Idle =>
      if m.batchCh != [] then
        Moves(s.(crew := m.SetWorker(w, Received(m.batchCh[0])).(batchCh := m.batchCh[1..])))
      else if m.closed then Moves(s.(crew := m.SetWorker(w, Exited)))
      else Blocked
    case Received(parcel) => Moves(s.(crew := m.SetWorker(w, Ready(parcel)), timer := Armed))
    case Ready(parcel) =>
      if parcel.items == [] then Moves(s.(crew := m.SetWorker(w, Idle)))
      else Moves(s.(crew := m.SetWorker(w, Exporting(parcel)).(handed := m.handed + [parcel])))
    case Exporting(parcel) =>
      Moves(s.(crew := m.SetWorker(w, Signalling(parcel, 0, ok, false)),
               answers := s.answers.(outcome := s.answers.outcome[parcel.ticket := ok])))
    case Signalling(parcel, k, result, valueSent) =>
      if k >= |parcel.items| then Moves(s.(crew := m.SetWorker(w, Idle)))
      else if !cfg.sync then Moves(s.(crew := m.SetWorker(w, Signalling(parcel, k + 1, result, false))))
      else
        var item := parcel.items[k];
        var ch := s.answers.Channel(item);
        if ch.closes > 0 then Panics
        else if valueSent then
          Moves(s.(crew := m.SetWorker(w, Signalling(parcel, k + 1, result, false)),
                   answers := s.answers.SetChannel(item, ch.(closes := ch.closes + 1))))
        else if ch.buffer.Some? then Blocked
        else
          Moves(s.(crew := m.SetWorker(w, Signalling(parcel, k, result, true)),
                   answers := s.answers.SetChannel(item, ch.(buffer := Some(result), sends := ch.sends + 1))))
  }

  // ----- Shutdown -----

  predicate AllExited(intake: Intake, crew: Crew) {
    intake.builder.Finished? && forall w :: 0 <= w < |crew.workers| ==> crew.workers[w].Exited?
  }

  predicate AnyReader(calls: seq<Call>) {
    exists c :: 0 <= c < |calls| && calls[c].HoldsReadLock()
  }

  function StepCloser(s: State): Step {
    var g := s.gate;
    match g.closer
    case Running => if g.stopClosed then Panics else Moves(s.(gate := g.(stopClosed := true, closer := StopClosed)))
    case StopClosed => Moves(s.(gate := g.(closer := LockWanted)))
    case LockWanted => if AnyReader(s.calls) then Blocked else Moves(s.(gate := g.(closer := LockHeld)))
    case LockHeld => if g.queueClosed then Panics else Moves(s.(gate := g.(queueClosed := true, closer := QueueClosed)))
    case QueueClosed => Moves(s.(gate := g.(closer := Joining)))
    case Joining =>
      if s.intake.Started() && !AllExited(s.intake, s.crew) then Blocked
      else Moves(s.(gate := g.(closer := Joined(s.intake.Started()))))
    case Joined(wasStarted) => Moves(s.(timer := Stopped, gate := g.(closer := TimerStopped(wasStarted))))
    case TimerStopped(wasStarted) => Moves(s.(gate := g.(closer := ExporterDown(wasStarted))))
    case ExporterDown(_) => Blocked
  }

  // ----- All steps -----

  datatype Action =
    | NewCall(input: seq<Option<int>>)
    | CallStep(c: nat)
    | CallGivesUp(c: nat)
    | Start
    | BuilderQueue
    | BuilderTimer
    | BuilderProceed
    | WorkerStep(w: nat, ok: bool)
    | TimerFires
    | CloserStep

  function Next(cfg: Config, s: State, a: Action): Step {
    match a
    case NewCall(input) =>
      var phase := if input == [] then Returned(Ok) else if !cfg.hasExporter then Returned(NoExporter) else NextChunk;
      Moves(s.(calls := s.calls + [Call(input, 0, phase)]))
    case CallStep(c) => if c < |s.calls| then StepCall(cfg, s, c) else Blocked
    case CallGivesUp(c) =>
      if c < |s.calls| && s.calls[c].Waits() then
        Moves(s.(calls := s.calls[c := s.calls[c].(phase := Returned(ContextDone))]))
      else Blocked
    case Start =>
      if s.intake.Started() then Blocked
      else Moves(s.(intake := s.intake.(builder := Selecting),
                    crew := s.crew.(workers := seq(|s.crew.workers|, _ => Idle))))
    case BuilderQueue => StepBuilderQueue(cfg, s)
    case BuilderTimer => StepBuilderTimer(s)
    case BuilderProceed => StepBuilderProceed(cfg, s)
    case WorkerStep(w, ok) => if w < |s.crew.workers| then StepWorker(cfg, s, w, ok) else Blocked
    case TimerFires => if s.timer.Armed? then Moves(s.(timer := Fired)) else Blocked
    case CloserStep => StepCloser(s)
  }

  ghost predicate IsRun(cfg: Config, states: seq<State>, actions: seq<Action>) {
    && |states| == |actions| + 1 && states[0] == Initial(cfg)
    && forall i :: 0 <= i < |actions| ==> Next(cfg, states[i], actions[i]) == Moves(states[i + 1])
  }

  ghost predicate Reachable(cfg: Config, s: State) {
    exists states: seq<State>, actions: seq<Action> :: IsRun(cfg, states, actions) && states[|actions|] == s
  }
}
