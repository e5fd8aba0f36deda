/**
 Several instances that share the work: when each event is processed by exactly one of them.
 */
module ShardPartition {
  import opened Wrappers
  import opened MachineInts
  import opened ShardConfig
  import opened Sharder

  /** Whatever the search finds for the topic and event, it has the given total and active shards. */
  ghost predicate Offers(cfg: Config, topic: string, event: string, total: Uint64, active: set<Uint64>)
    requires WellFormed(cfg)
  {
    forall found {:trigger IsBest(cfg, topic, event, found)} :: IsBest(cfg, topic, event, found) ==>
      found.Some? && found.value.totalShards == total && forall x :: x in found.value.activeShards <==> x in active
  }

  /** The key an event is sharded by once a configuration is found. */
  function ShardingKey(group: Group, e: Event): string {
    if group == GroupB then TOPIC_KEY_PREFIX + e.topic else e.msgId
  }

  /** Instances with the same event table and hash, all enabled. */
  ghost predicate Fleet(setups: seq<Setup>, groups: map<string, Group>, hash: string -> Uint64) {
    forall i :: 0 <= i < |setups| ==>
      WellFormed(setups[i].cfg) && setups[i].enabled && setups[i].groups == groups && setups[i].hash == hash
  }

  /** Exactly one of the sets has the shard. */
  ghost predicate OneOwner(actives: seq<set<Uint64>>, shard: Uint64) {
    exists i :: 0 <= i < |actives| && shard in actives[i] && forall j :: 0 <= j < |actives| && shard in actives[j] ==> j == i
  }

  /** The active sets are disjoint and cover 0 .. total - 1. */
  ghost predicate Partition(actives: seq<set<Uint64>>, total: Uint64) {
    forall shard: Uint64 :: shard < total ==> OneOwner(actives, shard)
  }

  /** A keyed event: one of a sharded group for which the lookup is made. */
  predicate Keyed(groups: map<string, Group>, e: Event) {
    e.name in groups && LookupTopic(groups[e.name], e).Some?
  }

  ghost predicate AllOffer(setups: seq<Setup>, groups: map<string, Group>, hash: string -> Uint64, e: Event,
                           total: Uint64, actives: seq<set<Uint64>>)
    requires Fleet(setups, groups, hash) && Keyed(groups, e) && |actives| == |setups|
  {
    forall i :: 0 <= i < |setups| ==>
      Offers(setups[i].cfg, LookupTopic(groups[e.name], e).value, e.name, total, actives[i])
  }

  /** Where the search leaves no choice, an instance processes the event exactly when its shard is active. */
  lemma OfferedDecision(setup: Setup, e: Event, total: Uint64, active: set<Uint64>, process: bool)
    requires WellFormed(setup.cfg) && setup.enabled && Keyed(setup.groups, e) && total > 0
    requires Offers(setup.cfg, LookupTopic(setup.groups[e.name], e).value, e.name, total, active)
    requires MayProcess(setup, e, process)
    ensures process <==> Shard(setup.hash, ShardingKey(setup.groups[e.name], e), total) in active
  {
    var d :| MayDecide(setup, e, d) && process == d.process;
  }

  ghost predicate Processes(setups: seq<Setup>, e: Event, results: seq<bool>)
    requires |results| == |setups| && forall i :: 0 <= i < |setups| ==> WellFormed(setups[i].cfg)
  {
    forall i :: 0 <= i < |setups| ==> MayProcess(setups[i], e, results[i])
  }

  ghost predicate ExactlyOne(results: seq<bool>) {
    exists i :: 0 <= i < |results| && results[i] && forall j :: 0 <= j < |results| && results[j] ==> j == i
  }

  lemma OwnerIsProcessor(actives: seq<set<Uint64>>, shard: Uint64, results: seq<bool>)
    requires |results| == |actives| && forall i :: 0 <= i < |results| ==> (results[i] <==> shard in actives[i])
    ensures ExactlyOne(results) <==> OneOwner(actives, shard)
  {
  }

  /** Instance i of a fleet. */
  lemma MemberDecision(setups: seq<Setup>, groups: map<string, Group>, hash: string -> Uint64, e: Event,
                       total: Uint64, actives: seq<set<Uint64>>, i: nat, process: bool)
    requires Fleet(setups, groups, hash) && Keyed(groups, e) && |actives| == |setups| && total > 0
    requires AllOffer(setups, groups, hash, e, total, actives)
    requires i < |setups| && MayProcess(setups[i], e, process)
    ensures process <==> Shard(hash, ShardingKey(groups[e.name], e), total) in actives[i]
  {
    OfferedDecision(setups[i], e, total, actives[i], process);
  }

  /** With disjoint active lists that cover all shards, exactly one instance processes a keyed event,
      whichever of the best configurations each of them finds. */
  lemma PartitionedExactlyOnce(setups: seq<Setup>, groups: map<string, Group>, hash: string -> Uint64, e: Event,
                               total: Uint64, actives: seq<set<Uint64>>, results: seq<bool>)
    requires Fleet(setups, groups, hash) && Keyed(groups, e) && |actives| == |setups| == |results| && total > 0
    requires AllOffer(setups, groups, hash, e, total, actives)
    requires Partition(actives, total) && Processes(setups, e, results)
    ensures ExactlyOne(results)
  {
    var shard := Shard(hash, ShardingKey(groups[e.name], e), total);
    assert OneOwner(actives, shard);
    forall i | 0 <= i < |results|
      ensures results[i] <==> shard in actives[i]
    {
      MemberDecision(setups, groups, hash, e, total, actives, i, results[i]);
    }
    OwnerIsProcessor(actives, shard, results);
  }

  /** The same instances with another hash. */
  function Rehash(setups: seq<Setup>, hash: string -> Uint64): seq<Setup> {
    seq(|setups|, i requires 0 <= i < |setups| => setups[i].(hash := hash))
  }

  /** Exactly one instance processes the event under every hash function. */
  ghost predicate OnceUnderEveryHash(setups: seq<Setup>, groups: map<string, Group>, e: Event)
    requires forall i :: 0 <= i < |setups| ==> WellFormed(setups[i].cfg)
  {
    forall hash: string -> Uint64, results: seq<bool> ::
      |results| == |setups| && Processes(Rehash(setups, hash), e, results) ==> ExactlyOne(results)
  }

  /** Disjoint and covering active lists are also necessary: exactly one instance processes the event
      under every hash exactly when the lists partition the shards. */
  lemma OnceIffPartition(setups: seq<Setup>, groups: map<string, Group>, hash: string -> Uint64, e: Event,
                         total: Uint64, actives: seq<set<Uint64>>)
    requires Fleet(setups, groups, hash) && Keyed(groups, e) && |actives| == |setups| && total > 0
    requires AllOffer(setups, groups, hash, e, total, actives)
    ensures OnceUnderEveryHash(setups, groups, e) <==> Partition(actives, total)
  {
    if Partition(actives, total) {
      forall h: string -> Uint64, results: seq<bool> | |results| == |setups| && Processes(Rehash(setups, h), e, results)
        ensures ExactlyOne(results)
      {
        PartitionedExactlyOnce(Rehash(setups, h), groups, h, e, total, actives, results);
      }
    }
    if OnceUnderEveryHash(setups, groups, e) {
      forall shard: Uint64 | shard < total
        ensures OneOwner(actives, shard)
      {
        ShardHasOneOwner(setups, groups, hash, e, total, actives, shard);
      }
    }
  }

  lemma SmallRemainder(x: nat, y: nat)
    requires x < y
    ensures x % y == x
  {
  }

  lemma ConstantHashShard(hash: string -> Uint64, key: string, total: Uint64, shard: Uint64)
    requires shard < total && hash(key) == shard
    ensures Shard(hash, key, total) == shard
  {
    SmallRemainder(shard, total);
  }

  /** Under a hash that sends every key to one shard, an instance processes the event exactly if that
      shard is active. */
  lemma ConstantHashDecision(setup: Setup, e: Event, total: Uint64, active: set<Uint64>, shard: Uint64)
    requires WellFormed(setup.cfg) && setup.enabled && Keyed(setup.groups, e) && shard < total
    requires Offers(setup.cfg, LookupTopic(setup.groups[e.name], e).value, e.name, total, active)
    requires setup.hash(ShardingKey(setup.groups[e.name], e)) == shard
    ensures MayProcess(setup, e, shard in active)
  {
    hide MayProcess, MayDecide, IsBest, WellFormed, Offers, Decide, Shard;
    ConstantHashShard(setup.hash, ShardingKey(setup.groups[e.name], e), total, shard);
    SomeDecision(setup, e);
    var process: bool :| MayProcess(setup, e, process);
    OfferedDecision(setup, e, total, active, process);
  }

  lemma ShardHasOneOwner(setups: seq<Setup>, groups: map<string, Group>, hash: string -> Uint64, e: Event,
                         total: Uint64, actives: seq<set<Uint64>>, shard: Uint64)
    requires Fleet(setups, groups, hash) && Keyed(groups, e) && |actives| == |setups| && shard < total
    requires AllOffer(setups, groups, hash, e, total, actives)
    requires OnceUnderEveryHash(setups, groups, e)
    ensures OneOwner(actives, shard)
  {
    var h: string -> Uint64 := key => shard;
    var fleet := Rehash(setups, h);
    var results := seq(|setups|, i requires 0 <= i < |setups| => shard in actives[i]);
    forall i | 0 <= i < |setups|
      ensures MayProcess(fleet[i], e, results[i])
    {
      MemberUnderConstantHash(setups, groups, hash, e, total, actives, shard, h, i);
    }
    assert Processes(fleet, e, results);
    OwnerIsProcessor(actives, shard, results);
  }

  lemma MemberUnderConstantHash(setups: seq<Setup>, groups: map<string, Group>, hash: string -> Uint64, e: Event,
                                total: Uint64, actives: seq<set<Uint64>>, shard: Uint64, h: string -> Uint64, i: nat)
    requires Fleet(setups, groups, hash) && Keyed(groups, e) && |actives| == |setups| && shard < total
    requires AllOffer(setups, groups, hash, e, total, actives)
    requires i < |setups| && h(ShardingKey(groups[e.name], e)) == shard
    ensures MayProcess(Rehash(setups, h)[i], e, shard in actives[i])
  {
    ConstantHashDecision(setups[i].(hash := h), e, total, actives[i], shard);
  }

  /** There is always some decision. */
  lemma SomeDecision(setup: Setup, e: Event)
    requires WellFormed(setup.cfg) && setup.enabled && Keyed(setup.groups, e)
    ensures exists process :: MayProcess(setup, e, process)
  {
    var group := setup.groups[e.name];
    var topic := LookupTopic(group, e).value;
    var found := SomeBest(setup.cfg, topic, e.name);
    var d := Decide(setup.hash, setup.cfg.noKeyEvents, group, e, found);
    assert MayDecide(setup, e, d);
    assert MayProcess(setup, e, d.process);
  }

  lemma SomeBest(cfg: Config, topic: string, event: string) returns (found: Option<TopicConfig>)
    requires WellFormed(cfg)
    ensures IsBest(cfg, topic, event, found) && (found.Some? ==> found.value.totalShards > 0)
  {
    if cfg.compiled.None? {
      found := None;
    } else if NamedExactly(cfg, topic, event) {
      found := Some(cfg.topics[event]);
    } else {
      found := BestAmong(cfg, topic, event, cfg.topics.Keys);
    }
  }

  lemma {:induction false} BestAmong(cfg: Config, topic: string, event: string, keys: set<string>) returns (found: Option<TopicConfig>)
    requires WellFormed(cfg) && cfg.compiled.Some? && keys <= cfg.topics.Keys
    ensures found.None? ==> forall p :: p in keys ==> !Candidate(cfg, topic, event, p)
    ensures found.Some? ==>
              && (exists p :: p in keys && Candidate(cfg, topic, event, p) && cfg.topics[p] == found.value)
              && found.value.totalShards > 0
              && forall p :: p in keys && Candidate(cfg, topic, event, p) ==> cfg.topics[p].SamplingRate() <= found.value.SamplingRate()
    decreases keys
  {
    if keys == {} {
      found := None;
    } else {
      var p :| p in keys;
      found := BestAmong(cfg, topic, event, keys - {p});
      if Candidate(cfg, topic, event, p)
         && (found.None? || cfg.topics[p].SamplingRate() > found.value.SamplingRate()) {
        found := Some(cfg.topics[p]);
      }
    }
  }

  /** Without any configuration for it, a message is processed by all instances or by none: the default
      shard is not divided among them. */
  lemma UnconfiguredIsNotShared(setups: seq<Setup>, groups: map<string, Group>, hash: string -> Uint64, e: Event, results: seq<bool>)
    requires Fleet(setups, groups, hash) && Keyed(groups, e) && |results| == |setups|
    requires forall i, p {:trigger Candidate(setups[i].cfg, LookupTopic(groups[e.name], e).value, e.name, p)} :: 0 <= i < |setups| ==>
               !Candidate(setups[i].cfg, LookupTopic(groups[e.name], e).value, e.name, p)
    requires forall i :: 0 <= i < |setups| ==> !NamedExactly(setups[i].cfg, LookupTopic(groups[e.name], e).value, e.name)
    requires Processes(setups, e, results)
    ensures forall i :: 0 <= i < |results| ==>
              (results[i] <==> groups[e.name] != GroupB && e.msgId != "" && Shard(hash, e.msgId, DEFAULT_TOTAL_SHARDS) == 0)
    ensures |setups| >= 2 ==> !ExactlyOne(results)
  {
    forall i | 0 <= i < |setups|
      ensures results[i] <==> groups[e.name] != GroupB && e.msgId != "" && Shard(hash, e.msgId, DEFAULT_TOTAL_SHARDS) == 0
    {
      assert MayProcess(setups[i], e, results[i]);
      var d :| MayDecide(setups[i], e, d) && results[i] == d.process;
    }
    if |setups| >= 2 {
      assert results[0] == results[1];
    }
  }

  // ----- Fleets that share one pattern -----

  /** Pattern p is the only one a search considers: the event's own entry, or the one pattern that applies. */
  ghost predicate SoleMatch(cfg: Config, topic: string, event: string, p: string) {
    && cfg.compiled.Some? && p in cfg.topics
    && if NamedExactly(cfg, topic, event) then p == event
       else Candidate(cfg, topic, event, p) && forall q :: Candidate(cfg, topic, event, q) ==> q == p
  }

  function ActiveSet(cfg: TopicConfig): set<Uint64> { set x | x in cfg.activeShards }

  /** Where one pattern decides, its total and active shards are what every search offers. */
  lemma SoleMatchOffers(cfg: Config, topic: string, event: string, p: string)
    requires WellFormed(cfg) && SoleMatch(cfg, topic, event, p)
    ensures Offers(cfg, topic, event, cfg.topics[p].totalShards, ActiveSet(cfg.topics[p]))
  {
  }

  /** One pattern decides the event on every instance, with the same total. */
  ghost predicate SharedPattern(setups: seq<Setup>, groups: map<string, Group>, e: Event, p: string, total: Uint64)
    requires Keyed(groups, e)
  {
    forall i :: 0 <= i < |setups| ==>
      SoleMatch(setups[i].cfg, LookupTopic(groups[e.name], e).value, e.name, p) && setups[i].cfg.topics[p].totalShards == total
  }

  /** The active shards each instance is configured with for the pattern. */
  function ActiveSets(setups: seq<Setup>, p: string): seq<set<Uint64>>
    requires forall i :: 0 <= i < |setups| ==> p in setups[i].cfg.topics
  {
    seq(|setups|, i requires 0 <= i < |setups| => ActiveSet(setups[i].cfg.topics[p]))
  }

  /** Instances that share one matching pattern and its total process each keyed event exactly once, under
      every hash, exactly if their active lists are disjoint and cover all shards. */
  lemma SharedPatternOnceIffPartition(setups: seq<Setup>, groups: map<string, Group>, hash: string -> Uint64, e: Event,
                                      p: string, total: Uint64)
    requires Fleet(setups, groups, hash) && Keyed(groups, e) && total > 0
    requires SharedPattern(setups, groups, e, p, total)
    ensures OnceUnderEveryHash(setups, groups, e) <==> Partition(ActiveSets(setups, p), total)
  {
    hide *;
    SharedPatternOffers(setups, groups, hash, e, p, total);
    OnceIffPartition(setups, groups, hash, e, total, ActiveSets(setups, p));
  }

  lemma SharedPatternOffers(setups: seq<Setup>, groups: map<string, Group>, hash: string -> Uint64, e: Event,
                            p: string, total: Uint64)
    requires Fleet(setups, groups, hash) && Keyed(groups, e) && SharedPattern(setups, groups, e, p, total)
    ensures forall i :: 0 <= i < |setups| ==> p in setups[i].cfg.topics && WellFormed(setups[i].cfg)
    ensures |ActiveSets(setups, p)| == |setups|
    ensures AllOffer(setups, groups, hash, e, total, ActiveSets(setups, p))
  {
    hide Offers, IsBest;
    forall i | 0 <= i < |setups|
      ensures Offers(setups[i].cfg, LookupTopic(groups[e.name], e).value, e.name, total, ActiveSets(setups, p)[i])
    {
      SoleMatchOffers(setups[i].cfg, LookupTopic(groups[e.name], e).value, e.name, p);
    }
  }
}
