/**
 The sharding decision for one instance: a memo in front of a search for the best matching pattern,
 and the decision each group of events takes from the configuration found.
 */
module Sharder {
  import opened Wrappers
  import opened MachineInts
  import opened ShardConfig

  const DEFAULT_TOTAL_SHARDS: Uint64 := 512
  const MAX_MEMO_ENTRIES: nat := 4096

  /** A compiled topic pattern; the empty constraint admits every event. */
  datatype Pattern = Pattern(matches: string -> bool, config: TopicConfig, eventConstraint: string)

  /** The topics as written, their compiled patterns, and whether events without keys are recorded. */
  datatype Config = Config(topics: map<string, TopicConfig>, compiled: Option<map<string, Pattern>>, noKeyEvents: Option<bool>)

  /** What compiling and validating the topics establishes. */
  ghost predicate WellFormed(cfg: Config) {
    && (forall p :: p in cfg.topics ==> cfg.topics[p].totalShards > 0)
    && (cfg.compiled.Some? ==>
          cfg.compiled.value.Keys == cfg.topics.Keys
          && forall p :: p in cfg.topics ==> cfg.compiled.value[p].config == cfg.topics[p])
  }

  /** An event constraint is an exact name, or a prefix followed by "*". */
  predicate Admits(eventConstraint: string, event: string) {
    if eventConstraint == "" then true
    else if eventConstraint[|eventConstraint| - 1] == '*' then eventConstraint[..|eventConstraint| - 1] <= event
    else event == eventConstraint
  }

  predicate Applies(pattern: Pattern, topic: string, event: string) {
    pattern.matches(topic) && Admits(pattern.eventConstraint, event)
  }

  ghost predicate Candidate(cfg: Config, topic: string, event: string, p: string) {
    cfg.compiled.Some? && p in cfg.compiled.value && Applies(cfg.compiled.value[p], topic, event)
  }

  /** An empty constraint admits every event, "P*" those that start with P, any other only itself. */
  lemma AdmitsIff(eventConstraint: string, event: string)
    ensures Admits(eventConstraint, event) <==>
              || eventConstraint == ""
              || (exists prefix: string, rest: string :: eventConstraint == prefix + "*" && event == prefix + rest)
              || ((forall prefix: string :: eventConstraint != prefix + "*") && event == eventConstraint)
  {
    if eventConstraint != "" {
      var n := |eventConstraint| - 1;
      if eventConstraint[n] == '*' {
        var prefix := eventConstraint[..n];
        assert eventConstraint == prefix + "*";
        if prefix <= event {
          assert event == prefix + event[n..];
        }
        forall other: string | eventConstraint == other + "*"
          ensures other == prefix
        {
          assert other == eventConstraint[..|other|];
        }
      } else {
        forall prefix: string
          ensures eventConstraint != prefix + "*"
        {
          assert (prefix + "*")[|prefix|] == '*';
        }
      }
    }
  }

  /** An event without a topic is looked up by its own name first. */
  predicate NamedExactly(cfg: Config, topic: string, event: string) {
    topic == "" && event in cfg.topics
  }

  /** What a search may find: the entry of the event's own name, or some applicable configuration of
      maximal sampling rate; nothing only if nothing applies. */
  ghost predicate IsBest(cfg: Config, topic: string, event: string, found: Option<TopicConfig>)
    requires WellFormed(cfg)
  {
    if cfg.compiled.None? then found.None?
    else if NamedExactly(cfg, topic, event) then found == Some(cfg.topics[event])
    else if found.None? then forall p :: !Candidate(cfg, topic, event, p)
    else
      && (exists p :: Candidate(cfg, topic, event, p) && cfg.topics[p] == found.value)
      && found.value.totalShards > 0
      && forall p :: Candidate(cfg, topic, event, p) ==> cfg.topics[p].SamplingRate() <= found.value.SamplingRate()
  }

  /** A compiled pattern whose expression matches the topic and whose constraint is empty, the event's name, or
      a prefix of it followed by "*". */
  ghost predicate MatchesEvent(cfg: Config, topic: string, event: string, p: string) {
    && cfg.compiled.Some? && p in cfg.compiled.value && cfg.compiled.value[p].matches(topic)
    && var eventConstraint := cfg.compiled.value[p].eventConstraint;
       || eventConstraint == ""
       || (exists prefix: string, rest: string :: eventConstraint == prefix + "*" && event == prefix + rest)
       || ((forall prefix: string :: eventConstraint != prefix + "*") && event == eventConstraint)
  }

  /** The share of active shards of a is at most that of b. */
  predicate NotMoreOf(a: TopicConfig, b: TopicConfig) {
    |a.activeShards| * b.totalShards <= |b.activeShards| * a.totalShards
  }

  /** What a search may find, in terms of the configuration: the entry of the event's own name for an empty
      topic, else a matching pattern's with the largest share of active shards, and nothing without one. */
  lemma BestIff(cfg: Config, topic: string, event: string, found: Option<TopicConfig>)
    requires WellFormed(cfg)
    ensures IsBest(cfg, topic, event, found) <==>
              if cfg.compiled.None? then found == None
              else if topic == "" && event in cfg.topics then found == Some(cfg.topics[event])
              else
                match found
                case None => forall p :: !MatchesEvent(cfg, topic, event, p)
                case Some(c) =>
                  && (exists p :: MatchesEvent(cfg, topic, event, p) && p in cfg.topics && cfg.topics[p] == c)
                  && forall p :: MatchesEvent(cfg, topic, event, p) && p in cfg.topics ==> NotMoreOf(cfg.topics[p], c)
  {
    hide Admits, MatchesEvent;
    forall p: string
      ensures Candidate(cfg, topic, event, p) <==> MatchesEvent(cfg, topic, event, p)
      ensures Candidate(cfg, topic, event, p) ==> p in cfg.topics && cfg.topics[p].totalShards > 0
    {
      CandidateMatches(cfg, topic, event, p);
    }
    if found.Some? && found.value.totalShards > 0 {
      forall p | Candidate(cfg, topic, event, p)
        ensures cfg.topics[p].SamplingRate() <= found.value.SamplingRate() <==> NotMoreOf(cfg.topics[p], found.value)
      {
        RateIsFraction(cfg.topics[p], found.value);
      }
    }
  }

  lemma CandidateMatches(cfg: Config, topic: string, event: string, p: string)
    ensures Candidate(cfg, topic, event, p) <==> MatchesEvent(cfg, topic, event, p)
  {
    hide Admits;
    if cfg.compiled.Some? && p in cfg.compiled.value {
      AdmitsIff(cfg.compiled.value[p].eventConstraint, event);
    }
  }

  /** The patterns are visited in any order. */
  method MatchTopicConfig(cfg: Config, topic: string, event: string) returns (best: Option<TopicConfig>)
    requires WellFormed(cfg)
    ensures IsBest(cfg, topic, event, best)
  {
    if cfg.compiled.None? {
      return None;
    }
    if topic == "" && event in cfg.topics {
      return Some(cfg.topics[event]);
    }
    best := None;
    var bestRate := 0.0;
    var left := cfg.compiled.value.Keys;
    while left != {}
      invariant left <= cfg.topics.Keys
      invariant best.Some? ==> best.value.totalShards > 0 && bestRate == best.value.SamplingRate()
      invariant best.Some? ==> exists p :: Candidate(cfg, topic, event, p) && cfg.topics[p] == best.value
      invariant forall p :: p !in left && Candidate(cfg, topic, event, p) ==>
                  best.Some? && cfg.topics[p].SamplingRate() <= bestRate
      decreases left
    {
      var p :| p in left;
      left := left - {p};
      var pattern := cfg.compiled.value[p];
      if Applies(pattern, topic, event) {
        assert Candidate(cfg, topic, event, p);
        var rate := pattern.config.SamplingRate();
        if best.None? || rate > bestRate {
          best, bestRate := Some(pattern.config), rate;
        }
      }
    }
  }

  // ----- Decisions -----

  datatype Group = GroupA | GroupB | GroupC | GroupD

  datatype Reason =
    | ShardingDisabled
    | UnknownEvent
    | GroupATopicMatch(active: bool)
    | GroupANoTopicConfig
    | GroupANoKeys
    | GroupBNoTopic
    | GroupBTopicMatch(active: bool)
    | GroupBNoConfig
    | GroupCNoMsgId
    | GroupCConfigured(active: bool, shard: Uint64)
    | GroupCDefault(shard: Uint64)
    | GroupDEnabled
    | GroupDDisabled

  datatype Event = Event(name: string, msgId: string, topic: string)

  /** The shard of a key; the hash is a fixed function of the key. */
  function Shard(hash: string -> Uint64, key: string, total: Uint64): Uint64
    requires total > 0
  {
    hash(key) % total
  }

  const TOPIC_KEY_PREFIX: string := "topic:"

  /** The topic a group's configuration is looked up under; None when no lookup is made. */
  function LookupTopic(group: Group, e: Event): Option<string> {
    match group
    case GroupA | GroupB => if e.topic == "" then None else Some(e.topic)
    case GroupC => if e.msgId == "" then None else Some("")
    case GroupD => None
  }

  datatype Decision = Decision(process: bool, reason: Reason)

  /** The decision from the configuration found, if a lookup was made. */
  function Decide(hash: string -> Uint64, noKeyEvents: Option<bool>, group: Group, e: Event, found: Option<TopicConfig>): Decision
    requires found.Some? ==> found.value.totalShards > 0
  {
    match group
    case GroupA =>
      if found.Some? then
        var active := Shard(hash, e.msgId, found.value.totalShards) in found.value.activeShards;
        Decision(active, GroupATopicMatch(active))
      else if e.msgId != "" then
        Decision(Shard(hash, e.msgId, DEFAULT_TOTAL_SHARDS) == 0, GroupANoTopicConfig)
      else Decision(false, GroupANoKeys)
    case GroupB =>
      if e.topic == "" then Decision(false, GroupBNoTopic)
      else if found.Some? then
        var active := Shard(hash, TOPIC_KEY_PREFIX + e.topic, found.value.totalShards) in found.value.activeShards;
        Decision(active, GroupBTopicMatch(active))
      else Decision(false, GroupBNoConfig)
    case GroupC =>
      if e.msgId == "" then Decision(false, GroupCNoMsgId)
      else if found.Some? then
        var shard := Shard(hash, e.msgId, found.value.totalShards);
        Decision(shard in found.value.activeShards, GroupCConfigured(shard in found.value.activeShards, shard))
      else
        var shard := Shard(hash, e.msgId, DEFAULT_TOTAL_SHARDS);
        Decision(shard == 0, GroupCDefault(shard))
    case GroupD =>
      if noKeyEvents == Some(true) then Decision(true, GroupDEnabled) else Decision(false, GroupDDisabled)
  }

  /** What never changes about an instance. */
  datatype Setup = Setup(cfg: Config, enabled: bool, groups: map<string, Group>, hash: string -> Uint64)

  /** The decisions an instance may take for an event: those of the configurations a search may find. */
  ghost predicate MayDecide(setup: Setup, e: Event, d: Decision)
    requires WellFormed(setup.cfg)
  {
    if !setup.enabled then d == Decision(true, ShardingDisabled)
    else if e.name !in setup.groups then d == Decision(true, UnknownEvent)
    else
      var group := setup.groups[e.name];
      var topic := LookupTopic(group, e);
      if topic.None? then d == Decide(setup.hash, setup.cfg.noKeyEvents, group, e, None)
      else exists found: Option<TopicConfig> :: IsBest(setup.cfg, topic.value, e.name, found)
             && (found.Some? ==> found.value.totalShards > 0)
             && d == Decide(setup.hash, setup.cfg.noKeyEvents, group, e, found)
  }

  ghost predicate MayProcess(setup: Setup, e: Event, process: bool)
    requires WellFormed(setup.cfg)
  {
    exists d :: MayDecide(setup, e, d) && process == d.process
  }

  /** What a found configuration says of a sharding key; without one, the group's default. */
  predicate ByConfig(hash: string -> Uint64, key: string, found: Option<TopicConfig>, byDefault: bool, process: bool) {
    match found
    case None => process == byDefault
    case Some(c) => c.totalShards > 0 && process == (hash(key) % c.totalShards in c.activeShards)
  }

  /** The sharding rule: everything is processed where sharding is disabled or the event is not in the table.
      Group A goes by message id under the best configuration for its topic, or by shard 0 of 512 without one;
      group B by "topic:" and its topic, never without a topic or a configuration; group C by message id under
      the best configuration for its name, or by shard 0 of 512; group D as configured. */
  ghost predicate Rule(setup: Setup, e: Event, process: bool)
    requires WellFormed(setup.cfg)
  {
    if !setup.enabled || e.name !in setup.groups then process
    else
      match setup.groups[e.name]
      case GroupA =>
        var byDefault := e.msgId != "" && setup.hash(e.msgId) % 512 == 0;
        if e.topic == "" then process == byDefault
        else exists found: Option<TopicConfig> :: IsBest(setup.cfg, e.topic, e.name, found) && ByConfig(setup.hash, e.msgId, found, byDefault, process)
      case GroupB =>
        if e.topic == "" then !process
        else exists found: Option<TopicConfig> :: IsBest(setup.cfg, e.topic, e.name, found) && ByConfig(setup.hash, "topic:" + e.topic, found, false, process)
      case GroupC =>
        if e.msgId == "" then !process
        else exists found: Option<TopicConfig> :: IsBest(setup.cfg, "", e.name, found)
                 && ByConfig(setup.hash, e.msgId, found, setup.hash(e.msgId) % 512 == 0, process)
      case GroupD => process == (setup.cfg.noKeyEvents == Some(true))
  }

  /** An instance may give a result exactly if the rule allows it. */
  lemma ProcessedIff(setup: Setup, e: Event, process: bool)
    requires WellFormed(setup.cfg)
    ensures MayProcess(setup, e, process) <==> Rule(setup, e, process)
  {
    if MayProcess(setup, e, process) {
      AllowedByRule(setup, e, process);
    }
    if Rule(setup, e, process) {
      RuleIsAllowed(setup, e, process);
    }
  }

  lemma AllowedByRule(setup: Setup, e: Event, process: bool)
    requires WellFormed(setup.cfg) && MayProcess(setup, e, process)
    ensures Rule(setup, e, process)
  {
    hide IsBest, WellFormed;
    var d :| MayDecide(setup, e, d) && process == d.process;
  }

  lemma RuleIsAllowed(setup: Setup, e: Event, process: bool)
    requires WellFormed(setup.cfg) && Rule(setup, e, process)
    ensures MayProcess(setup, e, process)
  {
    hide IsBest, WellFormed;
    if !setup.enabled {
      assert MayDecide(setup, e, Decision(true, ShardingDisabled));
    } else if e.name !in setup.groups {
      assert MayDecide(setup, e, Decision(true, UnknownEvent));
    } else {
      var group := setup.groups[e.name];
      var topic := LookupTopic(group, e);
      if topic.None? {
        assert MayDecide(setup, e, Decide(setup.hash, setup.cfg.noKeyEvents, group, e, None));
      } else {
        var key := if group == GroupB then "topic:" + e.topic else e.msgId;
        var byDefault := group != GroupB && e.msgId != "" && setup.hash(e.msgId) % 512 == 0;
        var found: Option<TopicConfig> :|
          IsBest(setup.cfg, topic.value, e.name, found) && ByConfig(setup.hash, key, found, byDefault, process);
        assert MayDecide(setup, e, Decide(setup.hash, setup.cfg.noKeyEvents, group, e, found));
      }
    }
  }

  /** Without the key its group is sharded by, only a message without a topic can be processed, by the
      default shard, and an event of a group without keys if those are recorded. */
  lemma WithoutLookup(setup: Setup, e: Event, process: bool)
    requires WellFormed(setup.cfg) && setup.enabled && e.name in setup.groups && MayProcess(setup, e, process)
    requires LookupTopic(setup.groups[e.name], e).None?
    ensures process <==>
              match setup.groups[e.name]
              case GroupA => e.topic == "" && e.msgId != "" && Shard(setup.hash, e.msgId, DEFAULT_TOTAL_SHARDS) == 0
              case GroupB => false
              case GroupC => false
              case GroupD => setup.cfg.noKeyEvents == Some(true)
  {
    var d :| MayDecide(setup, e, d) && process == d.process;
  }

  /** The reason alone, whatever the event and the instance, tells whether the event was processed. */
  ghost predicate TellsDecision(reason: Reason) {
    forall s1: Setup, e1: Event, d1: Decision, s2: Setup, e2: Event, d2: Decision ::
      (WellFormed(s1.cfg) && WellFormed(s2.cfg) && MayDecide(s1, e1, d1) && MayDecide(s2, e2, d2)
       && d1.reason == reason == d2.reason) ==> d1.process == d2.process
  }

  /** Whether an event was processed can be read off the reason, except where no topic configuration was
      found for a message: that reason does not say whether the message fell into the default shard. */
  lemma ReasonTellsDecisionIff(reason: Reason)
    ensures TellsDecision(reason) <==> reason != GroupANoTopicConfig
  {
    if reason == GroupANoTopicConfig {
      var e := Event("e", "m", "");
      var in0, in1 := UnmatchedSetup(0), UnmatchedSetup(1);
      assert MayDecide(in0, e, Decision(true, GroupANoTopicConfig));
      assert MayDecide(in1, e, Decision(false, GroupANoTopicConfig));
    } else {
      forall s1: Setup, e1: Event, d1: Decision, s2: Setup, e2: Event, d2: Decision
        | && WellFormed(s1.cfg) && WellFormed(s2.cfg) && MayDecide(s1, e1, d1) && MayDecide(s2, e2, d2)
          && d1.reason == reason == d2.reason
        ensures d1.process == d2.process
      {
        ReasonFixes(s1, e1, d1);
        ReasonFixes(s2, e2, d2);
      }
    }
  }

  /** The decision a reason stands for, where it stands for one. */
  function Reported(reason: Reason): bool {
    match reason
    case GroupATopicMatch(active) => active
    case GroupBTopicMatch(active) => active
    case GroupCConfigured(active, _) => active
    case GroupCDefault(shard) => shard == 0
    case _ => reason.ShardingDisabled? || reason.UnknownEvent? || reason.GroupDEnabled?
  }

  lemma ReasonFixes(setup: Setup, e: Event, d: Decision)
    requires WellFormed(setup.cfg) && MayDecide(setup, e, d) && d.reason != GroupANoTopicConfig
    ensures d.process == Reported(d.reason)
  {
  }

  /** An instance without topics, with one event of group A and a hash that sends every key to one shard. */
  function UnmatchedSetup(shard: Uint64): Setup {
    Setup(Config(map[], Some(map[]), Some(true)), true, map["e" := GroupA], key => shard)
  }

  function ItemEvent(event: string, item: (string, string)): Event { Event(event, item.0, item.1) }

  // ----- The memoized sharder -----

  datatype Key = Key(event: string, topic: string)

  type Memo = map<Key, Option<TopicConfig>>

  ghost predicate MemoIsRight(cfg: Config, memo: Memo)
    requires WellFormed(cfg)
  {
    forall key :: key in memo ==> IsBest(cfg, key.topic, key.event, memo[key])
  }

  /** Entries are never changed or dropped. */
  ghost predicate Extends(before: Memo, after: Memo) {
    forall key :: key in before ==> key in after && after[key] == before[key]
  }

  /** The key an event's configuration is remembered under, if a lookup is made for it. */
  function LookupKey(setup: Setup, e: Event): Option<Key> {
    if !setup.enabled || e.name !in setup.groups then None
    else
      match LookupTopic(setup.groups[e.name], e)
      case None => None
      case Some(topic) => Some(Key(e.name, topic))
  }

  /** What an instance decides without a lookup. */
  function DirectDecision(setup: Setup, e: Event): Decision
    requires LookupKey(setup, e).None?
  {
    if !setup.enabled then Decision(true, ShardingDisabled)
    else if e.name !in setup.groups then Decision(true, UnknownEvent)
    else Decide(setup.hash, setup.cfg.noKeyEvents, setup.groups[e.name], e, None)
  }

  predicate Usable(found: Option<TopicConfig>) { found.Some? ==> found.value.totalShards > 0 }

  /** What an instance decides from what its lookup found. */
  function FoundDecision(setup: Setup, e: Event, found: Option<TopicConfig>): Decision
    requires LookupKey(setup, e).Some? && Usable(found)
  {
    Decide(setup.hash, setup.cfg.noKeyEvents, setup.groups[e.name], e, found)
  }

  /** The memo has an entry for the event's lookup. */
  predicate Remembers(setup: Setup, memo: Memo, e: Event) {
    LookupKey(setup, e).Some? && LookupKey(setup, e).value in memo
  }

  ghost predicate DecidedByMemo(setup: Setup, memo: Memo, e: Event, d: Decision)
    requires Remembers(setup, memo, e)
  {
    var found := memo[LookupKey(setup, e).value];
    Usable(found) && d == FoundDecision(setup, e, found)
  }

  lemma ExtendsItself(memo: Memo)
    ensures Extends(memo, memo)
  {
  }

  lemma ExtendsThrough(a: Memo, b: Memo, c: Memo)
    requires Extends(a, b) && Extends(b, c)
    ensures Extends(a, c)
  {
  }

  lemma DisabledItem(setup: Setup, memo: Memo, e: Event)
    requires WellFormed(setup.cfg) && !setup.enabled
    ensures ItemRight(setup, memo, e, true)
  {
    assert MayDecide(setup, e, Decision(true, ShardingDisabled));
  }

  /** A result is one the instance may give, and the memo's where the memo its lookup loads from has an entry. */
  ghost predicate ItemRight(setup: Setup, loaded: Memo, e: Event, result: bool)
    requires WellFormed(setup.cfg)
  {
    && MayProcess(setup, e, result)
    && (Remembers(setup, loaded, e) ==> exists d :: DecidedByMemo(setup, loaded, e, d) && result == d.process)
  }

  lemma BestIsUsable(cfg: Config, topic: string, event: string, found: Option<TopicConfig>)
    requires WellFormed(cfg) && IsBest(cfg, topic, event, found)
    ensures Usable(found)
  {
  }

  /** An allowed decision is the direct one, or one that a best configuration leads to. */
  lemma AllowedDecisions(setup: Setup, e: Event, d: Decision)
    requires WellFormed(setup.cfg)
    ensures MayDecide(setup, e, d) <==>
              match LookupKey(setup, e)
              case None => d == DirectDecision(setup, e)
              case Some(key) =>
                exists found: Option<TopicConfig> ::
                  IsBest(setup.cfg, key.topic, key.event, found) && Usable(found) && d == FoundDecision(setup, e, found)
  {
  }

  // ----- Other callers -----

  /** What other callers store and count between two atomic steps of a call. */
  datatype Others = Others(stored: Memo, counted: nat)

  const NOBODY: Others := Others(map[], 0)

  /** The memo and its counter; stored entries never replace others. */
  datatype Shared = Shared(memo: Memo, count: int) {
    function After(others: Others): Shared { Shared(others.stored + memo, count + others.counted) }
  }

  ghost predicate OthersAreRight(cfg: Config, others: nat -> Others)
    requires WellFormed(cfg)
  {
    forall n: nat {:trigger others(n)} :: MemoIsRight(cfg, others(n).stored)
  }

  /** The memo after a lookup that found the given configuration.  Others may act before its load, during
      its search, before its store and before its count. */
  function AfterLookup(shared: Shared, key: Key, found: Option<TopicConfig>, others: nat -> Others): Shared {
    var loaded := shared.After(others(0));
    if key in loaded.memo then loaded
    else
      var searched := loaded.After(others(1));
      if searched.count >= MAX_MEMO_ENTRIES then searched
      else
        var storing := searched.After(others(2));
        if key in storing.memo then storing
        else
          var stored := storing.(memo := storing.memo[key := found]).After(others(3));
          stored.(count := stored.count + 1)
  }

  /** With other callers an entry may be somebody else's, but it never changes, and there is none only if
      the counter had reached the cap. */
  lemma LookupLeavesEntry(shared: Shared, key: Key, found: Option<TopicConfig>, others: nat -> Others)
    ensures var after := AfterLookup(shared, key, found, others);
            && Extends(shared.memo, after.memo) && Extends(shared.After(others(0)).memo, after.memo)
            && (key !in after.memo ==> after.count >= 4096)
  {
    hide Extends;
    var loaded := shared.After(others(0));
    var searched := loaded.After(others(1));
    var storing := searched.After(others(2));
    var stored := storing.(memo := storing.memo[key := found]);
    AfterExtends(shared, others(0));
    AfterExtends(loaded, others(1));
    AfterExtends(searched, others(2));
    AfterExtends(stored, others(3));
    ExtendsItself(loaded.memo);
    ExtendsThrough(loaded.memo, searched.memo, storing.memo);
    if key !in storing.memo {
      StoringExtends(storing.memo, key, found);
      ExtendsThrough(loaded.memo, storing.memo, stored.memo);
      ExtendsThrough(loaded.memo, stored.memo, stored.After(others(3)).memo);
    }
    ExtendsThrough(shared.memo, loaded.memo, AfterLookup(shared, key, found, others).memo);
  }

  lemma AfterExtends(shared: Shared, others: Others)
    ensures Extends(shared.memo, shared.After(others).memo)
  {
  }

  lemma StoringExtends(memo: Memo, key: Key, found: Option<TopicConfig>)
    requires key !in memo
    ensures Extends(memo, memo[key := found])
  {
  }

  /** A caller that nobody else interferes with keeps the cap, and the count exact. */
  lemma LoneLookup(shared: Shared, key: Key, found: Option<TopicConfig>, others: nat -> Others)
    requires forall n: nat {:trigger others(n)} :: others(n) == NOBODY
    requires shared.count == |shared.memo| <= 4096
    ensures var after := AfterLookup(shared, key, found, others);
            && after.count == |after.memo| <= 4096
            && after.memo == if key in shared.memo || |shared.memo| >= 4096 then shared.memo else shared.memo[key := found]
  {
    hide Shared.After;
    AfterNobody(shared);
    AfterNobody(shared.(memo := shared.memo[key := found]));
  }

  lemma AfterNobody(shared: Shared)
    ensures shared.After(NOBODY) == shared
  {
    assert map[] + shared.memo == shared.memo;
  }

  class UnifiedSharder {
    const setup: Setup
    var memo: Memo
    var memoCount: int

    ghost predicate Valid()
      reads this
    {
      WellFormed(setup.cfg) && MemoIsRight(setup.cfg, memo)
    }

    constructor (setup: Setup)
      requires WellFormed(setup.cfg)
      ensures Valid() && this.setup == setup && memo == map[] && memoCount == 0
    {
      this.setup := setup;
      memo := map[];
      memoCount := 0;
    }

    /** Other callers go on between two atomic steps of this one. */
    method Interleave(others: Others)
      requires Valid() && MemoIsRight(setup.cfg, others.stored)
      modifies this`memo, this`memoCount
      ensures Valid() && Shared(memo, memoCount) == Shared(old(memo), old(memoCount)).After(others)
    {
      memo := others.stored + memo;
      memoCount := memoCount + others.counted;
    }

    /** A known key is answered from the memo, a cached "no configuration" included; an unknown key is
        searched for, and remembered while there is room. */
    method FindTopicConfig(topic: string, event: string, others: nat -> Others) returns (found: Option<TopicConfig>)
      requires Valid() && OthersAreRight(setup.cfg, others)
      modifies this`memo, this`memoCount
      ensures Valid() && IsBest(setup.cfg, topic, event, found)
      ensures Shared(memo, memoCount) == AfterLookup(Shared(old(memo), old(memoCount)), Key(event, topic), found, others)
      ensures var loaded := Shared(old(memo), old(memoCount)).After(others(0)).memo;
              Key(event, topic) in loaded ==> found == loaded[Key(event, topic)]
    {
      hide IsBest;
      var key := Key(event, topic);
      Interleave(others(0));
      if key in memo {
        return memo[key];
      }
      found := MatchTopicConfig(setup.cfg, topic, event);
      Interleave(others(1));
      if memoCount < MAX_MEMO_ENTRIES {
        Interleave(others(2));
        if key !in memo {
          memo := memo[key := found];
          Interleave(others(3));
          memoCount := memoCount + 1;
        }
      }
    }

    method ShouldProcess(e: Event, others: nat -> Others) returns (d: Decision)
      requires Valid() && OthersAreRight(setup.cfg, others)
      modifies this`memo, this`memoCount
      ensures Valid() && Extends(old(memo), memo) && MayDecide(setup, e, d)
      ensures var loaded := Shared(old(memo), old(memoCount)).After(others(0)).memo;
              && (LookupKey(setup, e).Some? ==> Extends(loaded, memo))
              && (Remembers(setup, loaded, e) ==> DecidedByMemo(setup, loaded, e, d))
    {
      if !setup.enabled {
        return Decision(true, ShardingDisabled);
      }
      if e.name !in setup.groups {
        return Decision(true, UnknownEvent);
      }
      var group := setup.groups[e.name];
      var topic := LookupTopic(group, e);
      if topic.None? {
        return Decide(setup.hash, setup.cfg.noKeyEvents, group, e, None);
      }
      var found := FindTopicConfig(topic.value, e.name, others);
      BestIsUsable(setup.cfg, topic.value, e.name, found);
      LookupLeavesEntry(Shared(old(memo), old(memoCount)), Key(e.name, topic.value), found, others);
      return Decide(setup.hash, setup.cfg.noKeyEvents, group, e, found);
    }

    /** Others may act at every step of every item's lookup.  `memos` are the memos the items' lookups load
        from. */
    method ShouldProcessBatch(event: string, items: seq<(string, string)>, others: nat -> nat -> Others)
      returns (results: seq<bool>, ghost memos: seq<Memo>)
      requires Valid() && forall i: nat {:trigger others(i)} :: OthersAreRight(setup.cfg, others(i))
      modifies this`memo, this`memoCount
      ensures Valid() && |results| == |memos| == |items|
      ensures forall i :: 0 <= i < |items| ==> Extends(old(memo), memos[i]) && Extends(memos[i], memo)
      ensures forall i :: 0 <= i < |items| ==> ItemRight(setup, memos[i], ItemEvent(event, items[i]), results[i])
    {
      hide ItemRight, MemoIsRight, Extends;
      ExtendsItself(memo);
      if !setup.enabled {
        ghost var unused := memo;
        results := seq(|items|, i => true);
        memos := seq(|items|, i => unused);
        forall i | 0 <= i < |items|
          ensures ItemRight(setup, unused, ItemEvent(event, items[i]), true)
        {
          DisabledItem(setup, unused, ItemEvent(event, items[i]));
        }
        return;
      }
      results, memos := [], [];
      for i := 0 to |items|
        invariant Valid() && Extends(old(memo), memo) && |results| == |memos| == i
        invariant forall j :: 0 <= j < i ==> Extends(old(memo), memos[j]) && Extends(memos[j], memo)
        invariant forall j :: 0 <= j < i ==> ItemRight(setup, memos[j], ItemEvent(event, items[j]), results[j])
      {
        ghost var before := memo;
        var result, loaded := ProcessItem(ItemEvent(event, items[i]), others(i));
        ExtendsThrough(old(memo), before, loaded);
        ExtendsThrough(old(memo), before, memo);
        forall j | 0 <= j < i
          ensures Extends(memos[j], memo)
        {
          ExtendsThrough(memos[j], before, memo);
        }
        results, memos := results + [result], memos + [loaded];
      }
    }

    method ProcessItem(e: Event, others: nat -> Others) returns (result: bool, ghost loaded: Memo)
      requires Valid() && OthersAreRight(setup.cfg, others)
      modifies this`memo, this`memoCount
      ensures Valid() && Extends(old(memo), loaded) && Extends(loaded, memo)
      ensures loaded == if LookupKey(setup, e).Some? then others(0).stored + old(memo) else old(memo)
      ensures ItemRight(setup, loaded, e, result)
    {
      loaded := if LookupKey(setup, e).Some? then others(0).stored + memo else memo;
      var d := ShouldProcess(e, others);
      result := d.process;
    }
  }
}
