/**
 Decisions under concurrent callers: each caller works through batches of items, its lookups interleaved
 with everyone else's on one memo.  A single ShouldProcess call is a batch of one item.
 */
module ShardRuns {
  import opened Wrappers
  import opened ShardConfig
  import opened Sharder
  import ShardMemo
  import ShardPartition

  /** A caller's current batch and the results it has so far. */
  datatype Job = Job(event: string, items: seq<(string, string)>, results: seq<bool>) {
    predicate Done() { |results| >= |items| }

    function Current(): Event
      requires !Done()
    {
      ItemEvent(event, items[|results|])
    }
  }

  /** A decision given for an event; a settled one is direct, was loaded from the memo, or was stored there
      by the call that made it. */
  datatype Answer = Answer(e: Event, decision: Decision, settled: bool)

  datatype State = State(shared: ShardMemo.State, jobs: seq<Job>, answers: seq<Answer>)

  datatype Action =
    | Begin(caller: nat, event: string, items: seq<(string, string)>)
    | Direct(caller: nat)
    | Lookup(step: ShardMemo.Action)

  /** The caller's current item is answered. */
  function Answered(s: State, i: nat, decision: Decision, settled: bool): State
    requires i < |s.jobs| && !s.jobs[i].Done()
  {
    var job := s.jobs[i];
    s.(jobs := s.jobs[i := job.(results := job.results + [decision.process])],
       answers := s.answers + [Answer(job.Current(), decision, settled)])
  }

  /** A step of the memo, by a caller whose current item needs the lookup; a configuration returned decides
      the item. */
  ghost function LookupStep(setup: Setup, s: State, m: ShardMemo.Action): Option<State>
    requires WellFormed(setup.cfg)
  {
    if m.caller >= |s.jobs| || s.jobs[m.caller].Done() then None
    else
      var e := s.jobs[m.caller].Current();
      if LookupKey(setup, e).None? || (m.Load? && LookupKey(setup, e) != Some(m.key)) then None
      else
        match ShardMemo.Next(setup.cfg, s.shared, m)
        case None => None
        case Some(outcome) =>
          if outcome.returned.None? then Some(s.(shared := outcome.state))
          else if !Usable(outcome.returned.value) then None
          else
            Some(Answered(s, m.caller, FoundDecision(setup, e, outcome.returned.value), m.Load? || m.Count?)
                 .(shared := outcome.state))
  }

  ghost function Next(setup: Setup, s: State, a: Action): Option<State>
    requires WellFormed(setup.cfg)
  {
    match a
    case Begin(i, event, items) =>
      if i < |s.jobs| && s.jobs[i].Done() then Some(s.(jobs := s.jobs[i := Job(event, items, [])])) else None
    case Direct(i) =>
      if i < |s.jobs| && !s.jobs[i].Done() && LookupKey(setup, s.jobs[i].Current()).None? then
        Some(Answered(s, i, DirectDecision(setup, s.jobs[i].Current()), true))
      else None
    case Lookup(m) => LookupStep(setup, s, m)
  }

  function Initial(callers: nat): State {
    State(ShardMemo.Initial(callers), seq(callers, _ => Job("", [], [])), [])
  }

  ghost predicate IsRun(setup: Setup, callers: nat, states: seq<State>, actions: seq<Action>)
    requires WellFormed(setup.cfg)
  {
    && |states| == |actions| + 1 && states[0] == Initial(callers)
    && forall i :: 0 <= i < |actions| ==> Next(setup, states[i], actions[i]) == Some(states[i + 1])
  }

  ghost predicate Reachable(setup: Setup, callers: nat, s: State)
    requires WellFormed(setup.cfg)
  {
    exists states: seq<State>, actions: seq<Action> :: IsRun(setup, callers, states, actions) && states[|actions|] == s
  }

  // ----- The invariant -----

  /** A caller inside a lookup is at an item that needs it, and looks up that item's key. */
  predicate InStep(setup: Setup, caller: ShardMemo.Caller, job: Job) {
    !caller.Outside? ==> !job.Done() && LookupKey(setup, job.Current()) == Some(caller.key)
  }

  ghost predicate ResultsAllowed(setup: Setup, job: Job)
    requires WellFormed(setup.cfg)
  {
    |job.results| <= |job.items| &&
    forall j :: 0 <= j < |job.results| ==> MayProcess(setup, ItemEvent(job.event, job.items[j]), job.results[j])
  }

  ghost predicate JobsOk(setup: Setup, callers: seq<ShardMemo.Caller>, jobs: seq<Job>)
    requires WellFormed(setup.cfg)
  {
    |jobs| == |callers| &&
    forall i {:trigger jobs[i]} :: 0 <= i < |jobs| ==> InStep(setup, callers[i], jobs[i]) && ResultsAllowed(setup, jobs[i])
  }

  /** An answer is allowed; a settled one that needed a lookup is the memo's. */
  ghost predicate AnswerOk(setup: Setup, memo: Memo, a: Answer)
    requires WellFormed(setup.cfg)
  {
    && MayDecide(setup, a.e, a.decision)
    && (a.settled && LookupKey(setup, a.e).Some? ==> Remembers(setup, memo, a.e) && DecidedByMemo(setup, memo, a.e, a.decision))
  }

  ghost predicate AnswersOk(setup: Setup, memo: Memo, answers: seq<Answer>)
    requires WellFormed(setup.cfg)
  {
    forall n :: 0 <= n < |answers| ==> AnswerOk(setup, memo, answers[n])
  }

  /** What a caller has stored and not yet counted is the memo's entry. */
  predicate StoredKept(s: ShardMemo.State) {
    forall i :: 0 <= i < |s.callers| && s.callers[i].Stored? ==>
      s.callers[i].key in s.memo && s.memo[s.callers[i].key] == s.callers[i].found
  }

  ghost predicate Invariant(setup: Setup, s: State)
    requires WellFormed(setup.cfg)
  {
    && ShardMemo.FoundRight(setup.cfg, s.shared) && StoredKept(s.shared)
    && JobsOk(setup, s.shared.callers, s.jobs) && AnswersOk(setup, s.shared.memo, s.answers)
  }

  lemma AnswersKept(setup: Setup, before: Memo, after: Memo, answers: seq<Answer>)
    requires WellFormed(setup.cfg) && AnswersOk(setup, before, answers) && Extends(before, after)
    ensures AnswersOk(setup, after, answers)
  {
    hide MayDecide, LookupKey, FoundDecision;
  }

  /** What a step of the memo by caller i does, seen by the others and by the caller. */
  lemma MemoStepShape(cfg: Config, s: ShardMemo.State, m: ShardMemo.Action)
    requires WellFormed(cfg) && ShardMemo.FoundRight(cfg, s) && ShardMemo.Next(cfg, s, m).Some?
    ensures var outcome := ShardMemo.Next(cfg, s, m).value;
      var was, now := s.callers[m.caller], outcome.state.callers[m.caller];
      && |outcome.state.callers| == |s.callers| && outcome.state.callers == s.callers[m.caller := now]
      && (outcome.returned.Some? <==> now.Outside?)
      && (!now.Outside? ==> now.key == if m.Load? then m.key else was.key)
      && (m.Load? <==> was.Outside?)
  {
    hide IsBest;
  }

  lemma StoredStep(cfg: Config, s: ShardMemo.State, m: ShardMemo.Action)
    requires WellFormed(cfg) && StoredKept(s) && ShardMemo.Next(cfg, s, m).Some?
    ensures StoredKept(ShardMemo.Next(cfg, s, m).value.state)
  {
    hide IsBest;
  }

  /** What a lookup returns is best for its key, and the memo's entry where it was loaded or stored. */
  lemma MemoStepReturns(cfg: Config, s: ShardMemo.State, m: ShardMemo.Action)
    requires WellFormed(cfg) && ShardMemo.FoundRight(cfg, s) && StoredKept(s) && ShardMemo.Next(cfg, s, m).Some?
    requires ShardMemo.Next(cfg, s, m).value.returned.Some?
    ensures var outcome := ShardMemo.Next(cfg, s, m).value;
      var key := if m.Load? then m.key else s.callers[m.caller].key;
      var found := outcome.returned.value;
      && IsBest(cfg, key.topic, key.event, found) && Usable(found)
      && (m.Load? || m.Count? ==> key in outcome.state.memo && outcome.state.memo[key] == found)
  {
    hide IsBest;
    var key := if m.Load? then m.key else s.callers[m.caller].key;
    BestIsUsable(cfg, key.topic, key.event, ShardMemo.Next(cfg, s, m).value.returned.value);
  }

  lemma AnsweredJob(setup: Setup, job: Job, decision: Decision)
    requires WellFormed(setup.cfg) && ResultsAllowed(setup, job) && !job.Done() && MayDecide(setup, job.Current(), decision)
    ensures ResultsAllowed(setup, job.(results := job.results + [decision.process]))
  {
    assert MayProcess(setup, job.Current(), decision.process);
    hide MayDecide;
  }

  /** The decision a returned configuration leads to is allowed, and the memo's where it is in the memo. */
  lemma FoundIsAllowed(setup: Setup, memo: Memo, e: Event, found: Option<TopicConfig>, settled: bool)
    requires WellFormed(setup.cfg) && LookupKey(setup, e).Some? && Usable(found)
    requires var key := LookupKey(setup, e).value;
      IsBest(setup.cfg, key.topic, key.event, found) && (settled ==> key in memo && memo[key] == found)
    ensures AnswerOk(setup, memo, Answer(e, FoundDecision(setup, e, found), settled))
  {
    hide IsBest, Decide;
    AllowedDecisions(setup, e, FoundDecision(setup, e, found));
  }

  lemma DirectIsAllowed(setup: Setup, memo: Memo, e: Event)
    requires WellFormed(setup.cfg) && LookupKey(setup, e).None?
    ensures AnswerOk(setup, memo, Answer(e, DirectDecision(setup, e), true))
  {
    hide IsBest, Decide;
    AllowedDecisions(setup, e, DirectDecision(setup, e));
  }

  lemma BeginKeepsInvariant(setup: Setup, s: State, a: Action)
    requires WellFormed(setup.cfg) && Invariant(setup, s) && a.Begin? && Next(setup, s, a).Some?
    ensures Invariant(setup, Next(setup, s, a).value)
  {
    hide MayProcess, LookupKey, ShardMemo.FoundRight, AnswersOk;
  }

  lemma DirectKeepsInvariant(setup: Setup, s: State, a: Action)
    requires WellFormed(setup.cfg) && Invariant(setup, s) && a.Direct? && Next(setup, s, a).Some?
    ensures Invariant(setup, Next(setup, s, a).value)
  {
    hide MayProcess, LookupKey, ShardMemo.FoundRight, AnswerOk, ResultsAllowed, DirectDecision, MayDecide;
    var job := s.jobs[a.caller];
    var decision := DirectDecision(setup, job.Current());
    DirectIsAllowed(setup, s.shared.memo, job.Current());
    AllowedAnswer(setup, s.shared.memo, Answer(job.Current(), decision, true));
    AnsweredJob(setup, job, decision);
  }

  lemma AllowedAnswer(setup: Setup, memo: Memo, a: Answer)
    requires WellFormed(setup.cfg) && AnswerOk(setup, memo, a)
    ensures MayDecide(setup, a.e, a.decision)
  {
  }

  lemma LookupKeepsJobs(setup: Setup, s: State, m: ShardMemo.Action)
    requires WellFormed(setup.cfg) && Invariant(setup, s) && LookupStep(setup, s, m).Some?
    ensures JobsOk(setup, LookupStep(setup, s, m).value.shared.callers, LookupStep(setup, s, m).value.jobs)
    ensures var s' := LookupStep(setup, s, m).value;
      AnswersOk(setup, s'.shared.memo, s'.answers)
  {
    hide MayProcess, ShardMemo.FoundRight, AnswerOk, AnswersOk, ResultsAllowed, FoundDecision, MayDecide, ShardMemo.Next, Usable;
    var job := s.jobs[m.caller];
    var e := job.Current();
    var outcome := ShardMemo.Next(setup.cfg, s.shared, m).value;
    MemoStepShape(setup.cfg, s.shared, m);
    ShardMemo.StepExtends(setup.cfg, s.shared, m);
    AnswersKept(setup, s.shared.memo, outcome.state.memo, s.answers);
    if outcome.returned.Some? {
      MemoStepReturns(setup.cfg, s.shared, m);
      var answer := Answer(e, FoundDecision(setup, e, outcome.returned.value), m.Load? || m.Count?);
      FoundIsAllowed(setup, outcome.state.memo, e, outcome.returned.value, m.Load? || m.Count?);
      AllowedAnswer(setup, outcome.state.memo, answer);
      AnsweredJob(setup, job, answer.decision);
      AnswersPlus(setup, outcome.state.memo, s.answers, answer);
    }
  }

  lemma AnswersPlus(setup: Setup, memo: Memo, answers: seq<Answer>, a: Answer)
    requires WellFormed(setup.cfg) && AnswersOk(setup, memo, answers) && AnswerOk(setup, memo, a)
    ensures AnswersOk(setup, memo, answers + [a])
  {
    hide AnswerOk;
  }

  lemma StepKeepsInvariant(setup: Setup, s: State, a: Action)
    requires WellFormed(setup.cfg) && Invariant(setup, s) && Next(setup, s, a).Some?
    ensures Invariant(setup, Next(setup, s, a).value)
  {
    match a {
      case Begin(_, _, _) => BeginKeepsInvariant(setup, s, a);
      case Direct(_) => DirectKeepsInvariant(setup, s, a);
      case Lookup(m) =>
        hide JobsOk, AnswersOk, ShardMemo.FoundRight, StoredKept, ShardMemo.Next, LookupKey;
        LookupKeepsJobs(setup, s, m);
        ShardMemo.FoundRightStep(setup.cfg, s.shared, m);
        StoredStep(setup.cfg, s.shared, m);
    }
  }

  lemma InvariantInitially(setup: Setup, callers: nat)
    requires WellFormed(setup.cfg)
    ensures Invariant(setup, Initial(callers))
  {
  }

  lemma {:induction false} RunsKeepInvariant(setup: Setup, callers: nat, states: seq<State>, actions: seq<Action>, n: nat)
    requires WellFormed(setup.cfg) && IsRun(setup, callers, states, actions) && n <= |actions|
    ensures Invariant(setup, states[n])
  {
    if n == 0 {
      InvariantInitially(setup, callers);
    } else {
      hide Invariant, Next, WellFormed;
      var i := n - 1;
      RunsKeepInvariant(setup, callers, states, actions, i);
      assert Next(setup, states[i], actions[i]) == Some(states[i + 1]);
      StepKeepsInvariant(setup, states[i], actions[i]);
    }
  }

  lemma ReachableKeepsInvariant(setup: Setup, callers: nat, s: State)
    requires WellFormed(setup.cfg) && Reachable(setup, callers, s)
    ensures Invariant(setup, s)
  {
    hide Invariant, Next, WellFormed;
    var states: seq<State>, actions: seq<Action> :| IsRun(setup, callers, states, actions) && states[|actions|] == s;
    RunsKeepInvariant(setup, callers, states, actions, |actions|);
  }

  // ----- What every interleaving keeps -----

  /** In every interleaving each answer given, and each result of every caller's batch, is one that the
      direct decision or a best configuration for its event leads to. */
  lemma AnswersAreAllowed(setup: Setup, callers: nat, s: State)
    requires WellFormed(setup.cfg) && Reachable(setup, callers, s)
    ensures forall n :: 0 <= n < |s.answers| ==> MayDecide(setup, s.answers[n].e, s.answers[n].decision)
    ensures forall i :: 0 <= i < |s.jobs| ==> ResultsAllowed(setup, s.jobs[i])
  {
    hide MayDecide, ResultsAllowed, DecidedByMemo;
    ReachableKeepsInvariant(setup, callers, s);
  }

  /** An item whose key is remembered when its lookup loads gets the decision of the remembered entry, at
      once and as the next result of its batch. */
  lemma RememberedDecides(setup: Setup, callers: nat, s: State, i: nat, key: Key)
    requires WellFormed(setup.cfg) && Reachable(setup, callers, s)
    requires Next(setup, s, Lookup(ShardMemo.Load(i, key))).Some? && key in s.shared.memo
    ensures var s' := Next(setup, s, Lookup(ShardMemo.Load(i, key))).value;
      var e := s.jobs[i].Current();
      && Remembers(setup, s.shared.memo, e)
      && exists d :: DecidedByMemo(setup, s.shared.memo, e, d) && s'.answers == s.answers + [Answer(e, d, true)]
                     && s'.jobs[i].results == s.jobs[i].results + [d.process]
  {
    ReachableKeepsInvariant(setup, callers, s);
    hide IsBest, Decide, AnswersOk, MayProcess;
    var e := s.jobs[i].Current();
    var d := FoundDecision(setup, e, s.shared.memo[key]);
    assert DecidedByMemo(setup, s.shared.memo, e, d);
  }

  /** Answers from the memo, and of the call that filled the entry, agree in every interleaving. */
  lemma SettledAnswersAgree(setup: Setup, callers: nat, s: State, m: nat, n: nat)
    requires WellFormed(setup.cfg) && Reachable(setup, callers, s) && m < |s.answers| && n < |s.answers|
    requires s.answers[m].settled && s.answers[n].settled && s.answers[m].e == s.answers[n].e
    ensures s.answers[m].decision == s.answers[n].decision
  {
    hide Decide, IsBest;
    ReachableKeepsInvariant(setup, callers, s);
    assert AnswerOk(setup, s.shared.memo, s.answers[m]) && AnswerOk(setup, s.shared.memo, s.answers[n]);
    AllowedDecisions(setup, s.answers[m].e, s.answers[m].decision);
    AllowedDecisions(setup, s.answers[n].e, s.answers[n].decision);
  }

  // ----- Callers finish their batches -----

  /** The steps a caller has left in its batch, five for each lookup at most. */
  function StepsLeft(caller: ShardMemo.Caller, job: Job): int {
    if job.Done() then 0
    else
      5 * (|job.items| - |job.results| - 1) +
      match caller
      case Outside => 5
      case Missed(_) => 4
      case Searched(_, _) => 3
      case Admitted(_, _) => 2
      case Stored(_, _) => 1
  }

  predicate ByCaller(a: Action, i: nat) {
    match a
    case Begin(_, _, _) => false
    case Direct(c) => c == i
    case Lookup(m) => m.caller == i
  }

  /** In every interleaving a caller that is not through with its batch can go on, whatever the others do. */
  lemma CallerMoves(setup: Setup, callers: nat, s: State, i: nat) returns (a: Action)
    requires WellFormed(setup.cfg) && Reachable(setup, callers, s) && i < |s.jobs| && !s.jobs[i].Done()
    ensures ByCaller(a, i) && Next(setup, s, a).Some?
  {
    hide Decide, AnswersOk, MayProcess;
    ReachableKeepsInvariant(setup, callers, s);
    var e, caller := s.jobs[i].Current(), s.shared.callers[i];
    assert InStep(setup, caller, s.jobs[i]);
    if LookupKey(setup, e).None? {
      a := Direct(i);
    } else {
      hide IsBest, LookupKey;
      var m: ShardMemo.Action;
      match caller {
        case Outside => m := ShardMemo.Load(i, LookupKey(setup, e).value);
        case Missed(key) =>
          var found := ShardPartition.SomeBest(setup.cfg, key.topic, key.event);
          m := ShardMemo.Search(i, found);
        case Searched(_, _) => m := ShardMemo.Check(i);
        case Admitted(_, _) => m := ShardMemo.Store(i);
        case Stored(_, _) => m := ShardMemo.Count(i);
      }
      LookupGoesOn(setup, s, m);
      a := Lookup(m);
    }
  }

  lemma LookupGoesOn(setup: Setup, s: State, m: ShardMemo.Action)
    requires WellFormed(setup.cfg) && ShardMemo.FoundRight(setup.cfg, s.shared) && StoredKept(s.shared)
    requires m.caller < |s.jobs| && !s.jobs[m.caller].Done() && ShardMemo.Next(setup.cfg, s.shared, m).Some?
    requires LookupKey(setup, s.jobs[m.caller].Current()).Some?
    requires m.Load? ==> LookupKey(setup, s.jobs[m.caller].Current()) == Some(m.key)
    ensures LookupStep(setup, s, m).Some?
  {
    hide IsBest, LookupKey, ShardMemo.Next, FoundDecision, StoredKept, ShardMemo.FoundRight;
    if ShardMemo.Next(setup.cfg, s.shared, m).value.returned.Some? {
      MemoStepReturns(setup.cfg, s.shared, m);
    }
  }

  /** Each of its steps brings a caller nearer to the end of its batch, so it takes at most five for each item;
      the others' steps leave it where it is. */
  lemma CallerAdvances(setup: Setup, callers: nat, s: State, a: Action, i: nat)
    requires WellFormed(setup.cfg) && Reachable(setup, callers, s) && i < |s.jobs| && Next(setup, s, a).Some?
    ensures var s' := Next(setup, s, a).value;
      && |s'.jobs| == |s.jobs| == |s'.shared.callers| == |s.shared.callers|
      && (ByCaller(a, i) ==> StepsLeft(s'.shared.callers[i], s'.jobs[i]) < StepsLeft(s.shared.callers[i], s.jobs[i]) <= 5 * |s.jobs[i].items|)
      && (!ByCaller(a, i) && !(a.Begin? && a.caller == i) ==> s'.jobs[i] == s.jobs[i] && s'.shared.callers[i] == s.shared.callers[i])
  {
    hide Decide, AnswersOk, MayProcess, IsBest, LookupKey, MayDecide;
    ReachableKeepsInvariant(setup, callers, s);
    assert InStep(setup, s.shared.callers[i], s.jobs[i]);
    if a.Lookup? {
      hide ShardMemo.Next;
      MemoStepShape(setup.cfg, s.shared, a.step);
      MemoStepOrder(setup.cfg, s.shared, a.step);
    }
  }

  function Stage(caller: ShardMemo.Caller): int {
    match caller
    case Outside => 0
    case Missed(_) => 1
    case Searched(_, _) => 2
    case Admitted(_, _) => 3
    case Stored(_, _) => 4
  }

  lemma MemoStepOrder(cfg: Config, s: ShardMemo.State, m: ShardMemo.Action)
    requires WellFormed(cfg) && ShardMemo.Next(cfg, s, m).Some?
    ensures var now := ShardMemo.Next(cfg, s, m).value.state.callers[m.caller];
      !now.Outside? ==> Stage(now) == Stage(s.callers[m.caller]) + 1
  {
    hide IsBest;
  }

  // ----- When all answers for an event agree -----

  /** In every interleaving of the callers all answers for the event process it alike. */
  ghost predicate AlwaysAgree(setup: Setup, callers: nat, e: Event)
    requires WellFormed(setup.cfg)
  {
    forall s: State, m: nat, n: nat ::
      Reachable(setup, callers, s) && m < |s.answers| && n < |s.answers| && s.answers[m].e == e && s.answers[n].e == e ==>
      s.answers[m].decision.process == s.answers[n].decision.process
  }

  /** Every best configuration for the event's key leads to the same decision. */
  ghost predicate Undisputed(setup: Setup, e: Event)
    requires WellFormed(setup.cfg)
  {
    match LookupKey(setup, e)
    case None => true
    case Some(key) =>
      forall x: Option<TopicConfig>, y: Option<TopicConfig> ::
        IsBest(setup.cfg, key.topic, key.event, x) && IsBest(setup.cfg, key.topic, key.event, y) && Usable(x) && Usable(y) ==>
        FoundDecision(setup, e, x).process == FoundDecision(setup, e, y).process
  }

  lemma UndisputedDecides(setup: Setup, e: Event, d: Decision, d': Decision)
    requires WellFormed(setup.cfg) && Undisputed(setup, e) && MayDecide(setup, e, d) && MayDecide(setup, e, d')
    ensures d.process == d'.process
  {
    hide IsBest, Decide, MayDecide;
    AllowedDecisions(setup, e, d);
    AllowedDecisions(setup, e, d');
  }

  /** In every interleaving each result of a batch is what any single call for the same item answers, where
      the best configurations do not disagree about it. */
  lemma BatchAgreesWithCall(setup: Setup, callers: nat, s: State, i: nat, j: nat, n: nat)
    requires WellFormed(setup.cfg) && Reachable(setup, callers, s)
    requires i < |s.jobs| && j < |s.jobs[i].results| <= |s.jobs[i].items| && n < |s.answers|
    requires s.answers[n].e == ItemEvent(s.jobs[i].event, s.jobs[i].items[j]) && Undisputed(setup, s.answers[n].e)
    ensures s.jobs[i].results[j] == s.answers[n].decision.process
  {
    hide MayDecide, Undisputed;
    AnswersAreAllowed(setup, callers, s);
    assert ResultsAllowed(setup, s.jobs[i]) && MayProcess(setup, s.answers[n].e, s.jobs[i].results[j]);
    var d :| MayDecide(setup, s.answers[n].e, d) && s.jobs[i].results[j] == d.process;
    UndisputedDecides(setup, s.answers[n].e, d, s.answers[n].decision);
  }

  // ----- Two callers that disagree -----

  lemma InitialReachable(setup: Setup, callers: nat)
    requires WellFormed(setup.cfg)
    ensures Reachable(setup, callers, Initial(callers))
  {
    var actions: seq<Action> := [];
    assert IsRun(setup, callers, [Initial(callers)], actions);
  }

  lemma Moved(setup: Setup, callers: nat, s: State, a: Action) returns (s': State)
    requires WellFormed(setup.cfg) && Reachable(setup, callers, s) && Next(setup, s, a).Some?
    ensures Reachable(setup, callers, s') && Next(setup, s, a) == Some(s')
  {
    hide Next, WellFormed;
    s' := Next(setup, s, a).value;
    var states: seq<State>, actions: seq<Action> :| IsRun(setup, callers, states, actions) && states[|actions|] == s;
    var states', actions' := states + [s'], actions + [a];
    forall i | 0 <= i < |actions'|
      ensures Next(setup, states'[i], actions'[i]) == Some(states'[i + 1])
    {
      if i < |actions| {
        assert Next(setup, states[i], actions[i]) == Some(states[i + 1]);
      }
    }
    assert IsRun(setup, callers, states', actions');
  }

  /** Caller i is at the event, with the given memo in common; nothing was answered yet. */
  ghost predicate At(s: State, i: nat, e: Event, caller: ShardMemo.Caller) {
    && i < |s.jobs| == |s.shared.callers|
    && s.jobs[i] == Job(e.name, [(e.msgId, e.topic)], []) && s.shared.callers[i] == caller
  }

  /** A caller that missed the event's key has found a configuration and been admitted to store it. */
  lemma AdmitCaller(setup: Setup, callers: nat, s: State, i: nat, e: Event, found: Option<TopicConfig>) returns (s': State)
    requires WellFormed(setup.cfg) && Reachable(setup, callers, s) && i < |s.jobs| == |s.shared.callers|
    requires s.jobs[i] == Job("", [], []) && s.shared.callers[i].Outside? && s.shared.memo == map[] && s.shared.count == 0
    requires LookupKey(setup, e).Some?
    requires var key := LookupKey(setup, e).value; IsBest(setup.cfg, key.topic, key.event, found)
    ensures Reachable(setup, callers, s') && At(s', i, e, ShardMemo.Admitted(LookupKey(setup, e).value, found))
    ensures s'.shared.memo == map[] && s'.shared.count == 0 && s'.answers == s.answers
    ensures |s'.jobs| == |s.jobs| && |s'.shared.callers| == |s.shared.callers|
    ensures forall k :: 0 <= k < |s.jobs| && k != i ==> s'.jobs[k] == s.jobs[k] && s'.shared.callers[k] == s.shared.callers[k]
  {
    hide IsBest, WellFormed, Reachable, Decide;
    var key := LookupKey(setup, e).value;
    s' := Moved(setup, callers, s, Begin(i, e.name, [(e.msgId, e.topic)]));
    assert s'.jobs[i].Current() == e;
    s' := Moved(setup, callers, s', Lookup(ShardMemo.Load(i, key)));
    s' := Moved(setup, callers, s', Lookup(ShardMemo.Search(i, found)));
    s' := Moved(setup, callers, s', Lookup(ShardMemo.Check(i)));
  }

  /** Two admitted callers: the first one's configuration is stored, the second one's is returned all the same. */
  lemma BothReturn(setup: Setup, callers: nat, s: State, e: Event, x: Option<TopicConfig>, y: Option<TopicConfig>) returns (s': State)
    requires WellFormed(setup.cfg) && Reachable(setup, callers, s) && LookupKey(setup, e).Some? && Usable(x) && Usable(y)
    requires At(s, 0, e, ShardMemo.Admitted(LookupKey(setup, e).value, x))
    requires At(s, 1, e, ShardMemo.Admitted(LookupKey(setup, e).value, y))
    requires s.shared.memo == map[] && s.answers == []
    ensures Reachable(setup, callers, s')
    ensures s'.answers == [Answer(e, FoundDecision(setup, e, x), true), Answer(e, FoundDecision(setup, e, y), false)]
  {
    hide IsBest, WellFormed, Reachable, Decide;
    assert s.jobs[0].Current() == e && s.jobs[1].Current() == e;
    s' := Moved(setup, callers, s, Lookup(ShardMemo.Store(0)));
    s' := Moved(setup, callers, s', Lookup(ShardMemo.Count(0)));
    s' := Moved(setup, callers, s', Lookup(ShardMemo.Store(1)));
  }

  /** Any two best configurations can be answered in one run of two or more callers. */
  lemma BothAnswered(setup: Setup, callers: nat, e: Event, x: Option<TopicConfig>, y: Option<TopicConfig>) returns (s: State)
    requires WellFormed(setup.cfg) && callers >= 2 && LookupKey(setup, e).Some?
    requires var key := LookupKey(setup, e).value;
      IsBest(setup.cfg, key.topic, key.event, x) && IsBest(setup.cfg, key.topic, key.event, y)
    ensures Usable(x) && Usable(y) && Reachable(setup, callers, s)
    ensures s.answers == [Answer(e, FoundDecision(setup, e, x), true), Answer(e, FoundDecision(setup, e, y), false)]
  {
    hide IsBest, WellFormed, Reachable, Decide;
    var key := LookupKey(setup, e).value;
    BestIsUsable(setup.cfg, key.topic, key.event, x);
    BestIsUsable(setup.cfg, key.topic, key.event, y);
    InitialReachable(setup, callers);
    s := AdmitCaller(setup, callers, Initial(callers), 0, e, x);
    s := AdmitCaller(setup, callers, s, 1, e, y);
    s := BothReturn(setup, callers, s, e, x, y);
  }

  /** With two or more callers all answers for an event agree in every interleaving exactly if every best
      configuration for its key leads to the same decision. */
  lemma AlwaysAgreeIffUndisputed(setup: Setup, callers: nat, e: Event)
    requires WellFormed(setup.cfg) && callers >= 2
    ensures AlwaysAgree(setup, callers, e) <==> Undisputed(setup, e)
  {
    hide MayDecide, IsBest, Decide, WellFormed, Reachable;
    if Undisputed(setup, e) {
      forall s: State, m: nat, n: nat
        | Reachable(setup, callers, s) && m < |s.answers| && n < |s.answers| && s.answers[m].e == e && s.answers[n].e == e
        ensures s.answers[m].decision.process == s.answers[n].decision.process
      {
        AnswersAreAllowed(setup, callers, s);
        UndisputedDecides(setup, e, s.answers[m].decision, s.answers[n].decision);
      }
    } else {
      var key := LookupKey(setup, e).value;
      var x: Option<TopicConfig>, y: Option<TopicConfig> :|
        && IsBest(setup.cfg, key.topic, key.event, x) && IsBest(setup.cfg, key.topic, key.event, y) && Usable(x) && Usable(y)
        && FoundDecision(setup, e, x).process != FoundDecision(setup, e, y).process;
      var s := BothAnswered(setup, callers, e, x, y);
      assert s.answers[0].e == e && s.answers[1].e == e;
    }
  }

  // ----- The condition in a configuration -----

  /** Pattern p applies, and no pattern that applies has a higher rate. */
  ghost predicate Top(cfg: Config, topic: string, event: string, p: string)
    requires WellFormed(cfg)
  {
    && Candidate(cfg, topic, event, p) && p in cfg.topics
    && forall q :: Candidate(cfg, topic, event, q) ==> cfg.topics[q].SamplingRate() <= cfg.topics[p].SamplingRate()
  }

  /** Two patterns of equal highest rate decide the event differently, and it has no entry of its own name. */
  ghost predicate Tied(setup: Setup, e: Event, p: string, q: string)
    requires WellFormed(setup.cfg) && LookupKey(setup, e).Some?
  {
    var key := LookupKey(setup, e).value;
    && !NamedExactly(setup.cfg, key.topic, key.event)
    && Top(setup.cfg, key.topic, key.event, p) && Top(setup.cfg, key.topic, key.event, q)
    && FoundDecision(setup, e, Some(setup.cfg.topics[p])).process != FoundDecision(setup, e, Some(setup.cfg.topics[q])).process
  }

  lemma TopIsBest(cfg: Config, topic: string, event: string, p: string)
    requires WellFormed(cfg) && !NamedExactly(cfg, topic, event) && Top(cfg, topic, event, p)
    ensures IsBest(cfg, topic, event, Some(cfg.topics[p]))
  {
  }

  lemma BestIsTop(cfg: Config, topic: string, event: string, found: TopicConfig) returns (p: string)
    requires WellFormed(cfg) && !NamedExactly(cfg, topic, event) && IsBest(cfg, topic, event, Some(found))
    ensures Top(cfg, topic, event, p) && cfg.topics[p] == found
  {
    p :| Candidate(cfg, topic, event, p) && cfg.topics[p] == found;
  }

  lemma BestIsUniqueOtherwise(cfg: Config, topic: string, event: string, x: Option<TopicConfig>, y: Option<TopicConfig>)
    requires WellFormed(cfg) && IsBest(cfg, topic, event, x) && IsBest(cfg, topic, event, y)
    requires NamedExactly(cfg, topic, event) || x.None? || y.None?
    ensures x == y
  {
  }

  /** The best configurations disagree about an event exactly if two patterns are tied. */
  lemma DisputedIffTied(setup: Setup, e: Event)
    requires WellFormed(setup.cfg) && LookupKey(setup, e).Some?
    ensures !Undisputed(setup, e) <==> exists p, q :: Tied(setup, e, p, q)
  {
    var key := LookupKey(setup, e).value;
    if !Undisputed(setup, e) {
      hide IsBest, Decide, WellFormed, Top;
      var x: Option<TopicConfig>, y: Option<TopicConfig> :|
        && IsBest(setup.cfg, key.topic, key.event, x) && IsBest(setup.cfg, key.topic, key.event, y) && Usable(x) && Usable(y)
        && FoundDecision(setup, e, x).process != FoundDecision(setup, e, y).process;
      if NamedExactly(setup.cfg, key.topic, key.event) || x.None? || y.None? {
        BestIsUniqueOtherwise(setup.cfg, key.topic, key.event, x, y);
      } else {
        var p := BestIsTop(setup.cfg, key.topic, key.event, x.value);
        var q := BestIsTop(setup.cfg, key.topic, key.event, y.value);
        assert Tied(setup, e, p, q);
      }
    }
    forall p, q | Tied(setup, e, p, q)
      ensures !Undisputed(setup, e)
    {
      TiedIsDisputed(setup, e, p, q);
    }
  }

  lemma TiedIsDisputed(setup: Setup, e: Event, p: string, q: string)
    requires WellFormed(setup.cfg) && LookupKey(setup, e).Some? && Tied(setup, e, p, q)
    ensures !Undisputed(setup, e)
  {
    hide IsBest, Decide;
    var key := LookupKey(setup, e).value;
    TopIsBest(setup.cfg, key.topic, key.event, p);
    TopIsBest(setup.cfg, key.topic, key.event, q);
  }

  /** Two patterns that apply to every topic, each with one of two shards, and a hash into the second. */
  function TiedSetup(): Setup {
    var low, high := TopicConfig(2, [0]), TopicConfig(2, [1]);
    var all := (topic: string) => true;
    Setup(Config(map["p" := low, "q" := high], Some(map["p" := Pattern(all, low, ""), "q" := Pattern(all, high, "")]), None),
          true, map["e" := GroupB], key => 1)
  }

  lemma TiedSetupIsTied()
    ensures WellFormed(TiedSetup().cfg) && LookupKey(TiedSetup(), Event("e", "m", "t")).Some?
    ensures Tied(TiedSetup(), Event("e", "m", "t"), "p", "q")
  {
    var setup, e := TiedSetup(), Event("e", "m", "t");
    assert LookupKey(setup, e) == Some(Key("e", "t"));
    assert Candidate(setup.cfg, "t", "e", "p") && Candidate(setup.cfg, "t", "e", "q");
    assert setup.cfg.topics["p"].SamplingRate() == setup.cfg.topics["q"].SamplingRate();
    assert 1 in setup.cfg.topics["q"].activeShards && 1 !in setup.cfg.topics["p"].activeShards;
  }

  /** A tie under which two callers get different answers for the same event. */
  lemma TiesDisagree()
    ensures WellFormed(TiedSetup().cfg) && !AlwaysAgree(TiedSetup(), 2, Event("e", "m", "t"))
  {
    hide *;
    TiedSetupIsTied();
    TiedIsDisputed(TiedSetup(), Event("e", "m", "t"), "p", "q");
    AlwaysAgreeIffUndisputed(TiedSetup(), 2, Event("e", "m", "t"));
  }
}
