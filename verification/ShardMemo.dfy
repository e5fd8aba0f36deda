/**
 The memo under concurrent callers: each call loads, searches, checks the count, stores and counts as
 separate atomic steps, interleaved in any order.
 */
module ShardMemo {
  import opened Wrappers
  import opened ShardConfig
  import opened Sharder
  import ShardPartition

  /** Where one caller stands in findTopicConfig, with the key and what it has found. */
  datatype Caller =
    | Outside
    | Missed(key: Key)
    | Searched(key: Key, found: Option<TopicConfig>)
    | Admitted(key: Key, found: Option<TopicConfig>)
    | Stored(key: Key, found: Option<TopicConfig>)
  {
    /** Past the count check, but not yet counted. */
    predicate InWindow() { Admitted? || Stored? }
  }

  datatype State = State(memo: Memo, count: int, callers: seq<Caller>)

  datatype Action =
    | Load(caller: nat, key: Key)
    | Search(caller: nat, found: Option<TopicConfig>)
    | Check(caller: nat)
    | Store(caller: nat)
    | Count(caller: nat)

  function Move(s: State, caller: nat, to: Caller): State
    requires caller < |s.callers|
  {
    s.(callers := s.callers[caller := to])
  }

  /** The outcome of a step; a call that ends in it returns a configuration. */
  datatype Outcome = Outcome(state: State, returned: Option<Option<TopicConfig>>)

  /** The step an action takes, if it can. */
  ghost function Next(cfg: Config, s: State, a: Action): Option<Outcome>
    requires WellFormed(cfg)
  {
    if a.caller >= |s.callers| then None
    else
      var c := s.callers[a.caller];
      match a
      case Load(i, key) =>
        if !c.Outside? then None
        else if key in s.memo then Some(Outcome(s, Some(s.memo[key])))
        else Some(Outcome(Move(s, i, Missed(key)), None))
      case Search(i, found) =>
        if c.Missed? && IsBest(cfg, c.key.topic, c.key.event, found) then Some(Outcome(Move(s, i, Searched(c.key, found)), None))
        else None
      case Check(i) =>
        if !c.Searched? then None
        else if s.count < MAX_MEMO_ENTRIES then Some(Outcome(Move(s, i, Admitted(c.key, c.found)), None))
        else Some(Outcome(Move(s, i, Outside), Some(c.found)))
      case Store(i) =>
        if !c.Admitted? then None
        else if c.key in s.memo then Some(Outcome(Move(s, i, Outside), Some(c.found)))
        else Some(Outcome(Move(s, i, Stored(c.key, c.found)).(memo := s.memo[c.key := c.found]), None))
      case Count(i) =>
        if !c.Stored? then None
        else Some(Outcome(Move(s, i, Outside).(count := s.count + 1), Some(c.found)))
  }

  function Initial(callers: nat): State {
    State(map[], 0, seq(callers, _ => Outside))
  }

  ghost predicate IsRun(cfg: Config, callers: nat, states: seq<State>, actions: seq<Action>)
    requires WellFormed(cfg)
  {
    && |states| == |actions| + 1 && states[0] == Initial(callers)
    && forall i :: 0 <= i < |actions| ==>
         Next(cfg, states[i], actions[i]).Some? && Next(cfg, states[i], actions[i]).value.state == states[i + 1]
  }

  // ----- Counting callers -----

  function Stores(callers: seq<Caller>): nat {
    if callers == [] then 0 else Stores(callers[1..]) + if callers[0].Stored? then 1 else 0
  }

  function Window(callers: seq<Caller>): nat {
    if callers == [] then 0 else Window(callers[1..]) + if callers[0].InWindow() then 1 else 0
  }

  lemma {:induction false} MoveCounts(callers: seq<Caller>, i: nat, to: Caller)
    requires i < |callers|
    ensures Stores(callers[i := to]) == Stores(callers) - (if callers[i].Stored? then 1 else 0) + if to.Stored? then 1 else 0
    ensures Window(callers[i := to]) == Window(callers) - (if callers[i].InWindow() then 1 else 0) + if to.InWindow() then 1 else 0
  {
    if i == 0 {
      assert callers[0 := to][1..] == callers[1..];
    } else {
      assert callers[i := to][1..] == callers[1..][i - 1 := to];
      MoveCounts(callers[1..], i - 1, to);
    }
  }

  /** Stored callers are in the window, and a caller outside it is not counted. */
  lemma {:induction false} WindowBounds(callers: seq<Caller>)
    ensures Stores(callers) <= Window(callers) <= |callers|
  {
    if callers != [] {
      WindowBounds(callers[1..]);
    }
  }

  lemma {:induction false} WindowLeavesRoom(callers: seq<Caller>, i: nat)
    requires i < |callers| && !callers[i].InWindow()
    ensures Window(callers) <= |callers| - 1
  {
    WindowBounds(callers[1..]);
    if i > 0 {
      WindowLeavesRoom(callers[1..], i - 1);
    }
  }

  // ----- The invariant -----

  /** Entries are those counted and those still to be counted; the callers in the window were admitted
      below the cap. */
  ghost predicate Counted(callers: nat, s: State) {
    && |s.callers| == callers
    && |s.memo| == s.count + Stores(s.callers)
    && 0 <= s.count && s.count + Window(s.callers) <= MAX_MEMO_ENTRIES + (if callers == 0 then 0 else callers - 1)
  }

  /** What is remembered, and what a caller is about to store or return, is best for its key. */
  ghost predicate FoundRight(cfg: Config, s: State)
    requires WellFormed(cfg)
  {
    && MemoIsRight(cfg, s.memo)
    && forall i :: 0 <= i < |s.callers| && (s.callers[i].Searched? || s.callers[i].InWindow()) ==>
         IsBest(cfg, s.callers[i].key.topic, s.callers[i].key.event, s.callers[i].found)
  }

  ghost predicate Invariant(cfg: Config, callers: nat, s: State)
    requires WellFormed(cfg)
  {
    Counted(callers, s) && FoundRight(cfg, s)
  }

  lemma CountedStep(cfg: Config, callers: nat, s: State, a: Action)
    requires WellFormed(cfg) && Counted(callers, s) && Next(cfg, s, a).Some?
    ensures Counted(callers, Next(cfg, s, a).value.state)
  {
    var s' := Next(cfg, s, a).value.state;
    assert s'.callers == s.callers[a.caller := s'.callers[a.caller]];
    MoveCounts(s.callers, a.caller, s'.callers[a.caller]);
    if a.Check? {
      WindowLeavesRoom(s.callers, a.caller);
    }
  }

  lemma FoundRightStep(cfg: Config, s: State, a: Action)
    requires WellFormed(cfg) && FoundRight(cfg, s) && Next(cfg, s, a).Some?
    ensures FoundRight(cfg, Next(cfg, s, a).value.state)
  {
    hide IsBest;
  }

  lemma {:induction false} InvariantInitial(cfg: Config, callers: nat)
    requires WellFormed(cfg)
    ensures Invariant(cfg, callers, Initial(callers))
  {
    NoneInWindow(Initial(callers).callers);
  }

  lemma {:induction false} NoneInWindow(callers: seq<Caller>)
    requires forall i :: 0 <= i < |callers| ==> callers[i].Outside?
    ensures Stores(callers) == Window(callers) == 0
  {
    if callers != [] {
      NoneInWindow(callers[1..]);
    }
  }

  lemma {:induction false} InvariantHolds(cfg: Config, callers: nat, states: seq<State>, actions: seq<Action>, k: nat)
    requires WellFormed(cfg) && IsRun(cfg, callers, states, actions) && k < |states|
    ensures Invariant(cfg, callers, states[k])
  {
    if k == 0 {
      InvariantInitial(cfg, callers);
    } else {
      InvariantHolds(cfg, callers, states, actions, k - 1);
      CountedStep(cfg, callers, states[k - 1], actions[k - 1]);
      FoundRightStep(cfg, states[k - 1], actions[k - 1]);
    }
  }

  /** In every interleaving of N callers the memo holds at most N - 1 entries over its cap, and exactly as
      many as are counted plus those stored and still to be counted. */
  lemma MemoIsBounded(cfg: Config, callers: nat, states: seq<State>, actions: seq<Action>, k: nat)
    requires WellFormed(cfg) && IsRun(cfg, callers, states, actions) && k < |states| && callers > 0
    ensures |states[k].memo| <= 4096 + callers - 1
    ensures |states[k].memo| == states[k].count + Stores(states[k].callers)
  {
    InvariantHolds(cfg, callers, states, actions, k);
    WindowBounds(states[k].callers);
  }

  /** Every call returns a best configuration, or none only if none applies; a call whose key is already
      known returns what is remembered. */
  lemma ReturnsAreBest(cfg: Config, callers: nat, states: seq<State>, actions: seq<Action>, k: nat)
    requires WellFormed(cfg) && IsRun(cfg, callers, states, actions) && k < |actions|
    requires Next(cfg, states[k], actions[k]).value.returned.Some?
    ensures var a := actions[k];
            var key := if a.Load? then a.key else states[k].callers[a.caller].key;
            var found := Next(cfg, states[k], a).value.returned.value;
            IsBest(cfg, key.topic, key.event, found) && (a.Load? ==> key in states[k].memo && found == states[k].memo[key])
  {
    InvariantHolds(cfg, callers, states, actions, k);
  }

  lemma StepExtends(cfg: Config, s: State, a: Action)
    requires WellFormed(cfg) && Next(cfg, s, a).Some?
    ensures Extends(s.memo, Next(cfg, s, a).value.state.memo)
  {
    hide IsBest;
  }

  /** What is remembered for a key never changes, a remembered "no configuration" included. */
  lemma {:induction false} MemoOnlyGrows(cfg: Config, callers: nat, states: seq<State>, actions: seq<Action>, j: nat, k: nat)
    requires WellFormed(cfg) && IsRun(cfg, callers, states, actions) && j <= k < |states|
    ensures Extends(states[j].memo, states[k].memo)
  {
    if j < k {
      hide Next;
      var i := k - 1;
      MemoOnlyGrows(cfg, callers, states, actions, j, i);
      assert Next(cfg, states[i], actions[i]).value.state == states[i + 1];
      StepExtends(cfg, states[i], actions[i]);
    }
  }

  /** Once a key is remembered, every later call for it returns the same configuration, at once. */
  lemma RememberedIsStable(cfg: Config, callers: nat, states: seq<State>, actions: seq<Action>, j: nat, k: nat)
    requires WellFormed(cfg) && IsRun(cfg, callers, states, actions) && j <= k < |actions|
    requires actions[k].Load? && actions[k].key in states[j].memo
    ensures Next(cfg, states[k], actions[k]).value.returned == Some(states[j].memo[actions[k].key])
  {
    MemoOnlyGrows(cfg, callers, states, actions, j, k);
    assert Next(cfg, states[k], actions[k]).Some?;
  }

  // ----- The bound is reached -----

  ghost predicate Reachable(cfg: Config, callers: nat, s: State)
    requires WellFormed(cfg)
  {
    exists states: seq<State>, actions: seq<Action> :: IsRun(cfg, callers, states, actions) && states[|actions|] == s
  }

  lemma InitialReachable(cfg: Config, callers: nat)
    requires WellFormed(cfg)
    ensures Reachable(cfg, callers, Initial(callers))
  {
    var actions: seq<Action> := [];
    assert IsRun(cfg, callers, [Initial(callers)], actions);
  }

  lemma StepReachable(cfg: Config, callers: nat, s: State, a: Action) returns (s': State)
    requires WellFormed(cfg) && Reachable(cfg, callers, s) && Next(cfg, s, a).Some?
    ensures Reachable(cfg, callers, s') && s' == Next(cfg, s, a).value.state
  {
    s' := Next(cfg, s, a).value.state;
    var states: seq<State>, actions: seq<Action> :| IsRun(cfg, callers, states, actions) && states[|actions|] == s;
    var states', actions' := states + [s'], actions + [a];
    forall i | 0 <= i < |actions'|
      ensures Next(cfg, states'[i], actions'[i]).Some? && Next(cfg, states'[i], actions'[i]).value.state == states'[i + 1]
    {
      if i < |actions| {
        assert Next(cfg, states[i], actions[i]).value.state == states[i + 1];
      }
    }
    assert IsRun(cfg, callers, states', actions');
  }

  /** The n-th of a family of different keys. */
  function NthKey(n: nat): Key { Key(seq(n, _ => 'x'), "t") }

  /** The first n keys are remembered and counted. */
  ghost predicate Holds(s: State, n: nat) {
    |s.memo| == n && forall key :: key in s.memo ==> |key.event| < n
  }

  /** A caller outside finds a key that is not remembered and is admitted below the cap. */
  lemma Admit(cfg: Config, callers: nat, s: State, i: nat, n: nat) returns (s': State)
    requires WellFormed(cfg) && Reachable(cfg, callers, s) && i < |s.callers| && s.callers[i].Outside?
    requires s.count < MAX_MEMO_ENTRIES && NthKey(n) !in s.memo
    ensures Reachable(cfg, callers, s') && s'.memo == s.memo && s'.count == s.count
    ensures exists found :: s'.callers == s.callers[i := Admitted(NthKey(n), found)]
  {
    var key := NthKey(n);
    s' := StepReachable(cfg, callers, s, Load(i, key));
    var found := ShardPartition.SomeBest(cfg, key.topic, key.event);
    s' := StepReachable(cfg, callers, s', Search(i, found));
    s' := StepReachable(cfg, callers, s', Check(i));
    assert s'.callers == s.callers[i := Admitted(key, found)];
  }

  /** One caller alone fills the memo with n keys. */
  lemma {:induction false} Fill(cfg: Config, callers: nat, n: nat) returns (s: State)
    requires WellFormed(cfg) && callers > 0 && n <= MAX_MEMO_ENTRIES
    ensures Reachable(cfg, callers, s) && s.callers == Initial(callers).callers && s.count == n && Holds(s, n)
  {
    if n == 0 {
      InitialReachable(cfg, callers);
      s := Initial(callers);
    } else {
      var before := Fill(cfg, callers, n - 1);
      s := Admit(cfg, callers, before, 0, n - 1);
      s := StepReachable(cfg, callers, s, Store(0));
      s := StepReachable(cfg, callers, s, Count(0));
      assert s.callers == before.callers;
    }
  }

  /** The first k callers were admitted with the keys from n on, the others are outside. */
  ghost predicate AllAdmitted(s: State, n: nat, k: nat) {
    && k <= |s.callers|
    && (forall i :: 0 <= i < k ==> s.callers[i].Admitted? && s.callers[i].key == NthKey(n + i))
    && (forall i :: k <= i < |s.callers| ==> s.callers[i].Outside?)
  }

  lemma {:induction false} AdmitAll(cfg: Config, callers: nat, n: nat, k: nat) returns (s: State)
    requires WellFormed(cfg) && callers > 0 && n < MAX_MEMO_ENTRIES && k <= callers
    ensures Reachable(cfg, callers, s) && |s.callers| == callers && s.count == n && Holds(s, n)
    ensures AllAdmitted(s, n, k)
  {
    if k == 0 {
      s := Fill(cfg, callers, n);
    } else {
      var before := AdmitAll(cfg, callers, n, k - 1);
      s := Admit(cfg, callers, before, k - 1, n + k - 1);
    }
  }

  /** Callers from k on are still to store. */
  lemma {:induction false} StoreAll(cfg: Config, callers: nat, n: nat, k: nat) returns (s: State)
    requires WellFormed(cfg) && callers > 0 && n < MAX_MEMO_ENTRIES && k <= callers
    ensures Reachable(cfg, callers, s) && |s.callers| == callers && Holds(s, n + k)
    ensures forall i :: k <= i < callers ==> s.callers[i].Admitted? && s.callers[i].key == NthKey(n + i)
  {
    if k == 0 {
      s := AdmitAll(cfg, callers, n, callers);
    } else {
      var before := StoreAll(cfg, callers, n, k - 1);
      s := StepReachable(cfg, callers, before, Store(k - 1));
    }
  }

  /** The bound is exact: some interleaving of N callers reaches 4096 + N - 1 entries. */
  lemma BoundIsReached(cfg: Config, callers: nat) returns (s: State)
    requires WellFormed(cfg) && callers > 0
    ensures Reachable(cfg, callers, s) && |s.memo| == 4096 + callers - 1
  {
    s := StoreAll(cfg, callers, MAX_MEMO_ENTRIES - 1, callers);
  }
}
