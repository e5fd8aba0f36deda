/**
 Topic sharding configuration: the shard list of a pattern, written as numbers and "start-end" ranges,
 its validation, and the sampling rate it stands for.
 */
module ShardConfig {
  import opened Wrappers
  import opened MachineInts
  import opened ShardEntries

  // ----- Unmarshalling the list -----

  /** The value of the range loop's counter after n increments of a uint64. */
  function Counter(low: Uint64, n: nat): Uint64 { ToUint64(low + n) }

  /** The range loop `for i := low; i <= high; i++` ends exactly when high is below the largest uint64. */
  lemma SpanLoopEndsIff(low: Uint64, high: Uint64)
    requires low <= high
    ensures (exists n: nat :: Counter(low, n) > high) <==> high < U64 - 1
  {
    if high < U64 - 1 {
      assert Counter(low, high + 1 - low) == high + 1;
    }
  }

  /** A range entry whose loop never ends. */
  ghost predicate Endless(entry: RawEntry) {
    entry.StringEntry? && exists low: Uint64, high: Uint64 :: RangeText(entry.text, low, high) && high == U64 - 1
  }

  /** No endless range is reached: any is preceded by a malformed entry. */
  ghost predicate Ends(entries: seq<RawEntry>) {
    forall i :: 0 <= i < |entries| && (forall j :: 0 <= j < i ==> Readable(entries[j])) ==> !Endless(entries[i])
  }

  /** The error of the first malformed entry. */
  ghost predicate FirstError(entries: seq<RawEntry>, error: EntryError) {
    exists i :: 0 <= i < |entries| && ParseEntry(entries[i]) == Failure(error) && !Readable(entries[i]) &&
      (forall j :: 0 <= j < i ==> Readable(entries[j]))
  }

  /** Some entry stands for x. */
  ghost predicate Denoted(entries: seq<RawEntry>, x: Uint64) {
    exists i :: 0 <= i < |entries| && Means(entries[i], x)
  }

  predicate StrictlyIncreasing(s: seq<Uint64>) {
    forall i, j :: 0 <= i < j < |s| ==> s[i] < s[j]
  }

  predicate Distinct(s: seq<Uint64>) {
    forall i, j :: 0 <= i < j < |s| ==> s[i] != s[j]
  }

  lemma FirstIsLeast(s: seq<Uint64>)
    requires StrictlyIncreasing(s) && s != []
    ensures StrictlyIncreasing(s[1..]) && s[0] !in s[1..]
    ensures forall y :: y in s[1..] ==> s[0] < y
  {
  }

  lemma PutFirst(x: Uint64, s: seq<Uint64>)
    requires StrictlyIncreasing(s) && forall y :: y in s ==> x < y
    ensures StrictlyIncreasing([x] + s)
    ensures forall y :: y in [x] + s <==> y == x || y in s
  {
    assert forall k :: 0 <= k < |s| ==> s[k] in s;
  }

  function Insert(s: seq<Uint64>, x: Uint64): (r: seq<Uint64>)
    requires StrictlyIncreasing(s) && x !in s
    ensures StrictlyIncreasing(r)
    ensures forall y :: y in r <==> y == x || y in s
    ensures |r| == |s| + 1
  {
    if s == [] || x < s[0] then [x] + s
    else
      var rest := Insert(s[1..], x);
      FirstIsLeast(s);
      PutFirst(s[0], rest);
      [s[0]] + rest
  }

  /** The sorted order of a list without duplicates. */
  function Sorted(s: seq<Uint64>): (r: seq<Uint64>)
    requires Distinct(s)
    ensures StrictlyIncreasing(r)
    ensures forall y :: y in r <==> y in s
    ensures |r| == |s|
  {
    if s == [] then []
    else
      assert s[0] !in s[1..];
      Insert(Sorted(s[1..]), s[0])
  }

  /** The shards collected so far: a list without duplicates and the set of its elements. */
  ghost predicate Collected(result: seq<Uint64>, seen: set<Uint64>) {
    Distinct(result) && forall x :: x in result <==> x in seen
  }

  method AddShard(result: seq<Uint64>, seen: set<Uint64>, shard: Uint64) returns (result': seq<Uint64>, seen': set<Uint64>)
    requires Collected(result, seen)
    ensures Collected(result', seen')
    ensures seen' == seen + {shard}
  {
    result', seen' := result, seen;
    if shard !in seen {
      result', seen' := result + [shard], seen + {shard};
    }
  }

  /** The range loop, for a range it comes to the end of. */
  method AddSpan(result: seq<Uint64>, seen: set<Uint64>, low: Uint64, high: Uint64)
    returns (result': seq<Uint64>, seen': set<Uint64>)
    requires Collected(result, seen) && low <= high < U64 - 1
    ensures Collected(result', seen')
    ensures forall x :: x in seen' <==> x in seen || low <= x <= high
  {
    result', seen' := result, seen;
    var i: Uint64 := low;
    while i <= high
      invariant low <= i <= high + 1
      invariant Collected(result', seen')
      invariant forall x :: x in seen' <==> x in seen || low <= x < i
    {
      result', seen' := AddShard(result', seen', i);
      i := ToUint64(i + 1);
    }
  }

  /** The shards the first k entries denote. */
  ghost predicate Gathered(entries: seq<RawEntry>, k: nat, seen: set<Uint64>)
    requires k <= |entries|
  {
    forall x :: x in seen <==> Denoted(entries[..k], x)
  }

  lemma NothingGathered(entries: seq<RawEntry>)
    ensures Gathered(entries, 0, {})
  {
  }

  lemma GatherNext(entries: seq<RawEntry>, k: nat, seen: set<Uint64>, seen': set<Uint64>)
    requires k < |entries| && Gathered(entries, k, seen)
    requires forall x :: x in seen' <==> x in seen || Means(entries[k], x)
    ensures Gathered(entries, k + 1, seen')
  {
    hide Means, Denoted;
    DenotedStep(entries, k);
  }

  lemma DenotedStep(entries: seq<RawEntry>, k: nat)
    requires k < |entries|
    ensures forall x :: Denoted(entries[..k + 1], x) <==> Denoted(entries[..k], x) || Means(entries[k], x)
  {
    hide Means;
    forall x: Uint64
      ensures Denoted(entries[..k + 1], x) <==> Denoted(entries[..k], x) || Means(entries[k], x)
    {
      if Denoted(entries[..k], x) {
        var i :| 0 <= i < k && Means(entries[..k][i], x);
        assert entries[..k + 1][i] == entries[i];
      }
      if Means(entries[k], x) {
        assert entries[..k + 1][k] == entries[k];
      }
      if Denoted(entries[..k + 1], x) {
        var i :| 0 <= i < k + 1 && Means(entries[..k + 1][i], x);
        assert i < k ==> entries[..k][i] == entries[..k + 1][i];
      }
    }
  }

  /** The whole list: the first malformed entry's error, or the sorted list of what the entries stand for. */
  method UnmarshalActiveShards(entries: seq<RawEntry>) returns (r: Result<seq<Uint64>, EntryError>)
    requires Ends(entries)
    ensures r.Failure? <==> exists i :: 0 <= i < |entries| && !Readable(entries[i])
    ensures r.Failure? ==> FirstError(entries, r.error)
    ensures r.Success? ==> StrictlyIncreasing(r.value) && forall x :: x in r.value <==> Denoted(entries, x)
  {
    hide Denoted, ParseEntry, Sorted, Means, Endless;
    var result: seq<Uint64> := [];
    var seen: set<Uint64> := {};
    NothingGathered(entries);
    for k := 0 to |entries|
      invariant forall j :: 0 <= j < k ==> Readable(entries[j])
      invariant Collected(result, seen) && Gathered(entries, k, seen)
    {
      EntryMeans(entries[k]);
      var parsed := ParseEntry(entries[k]);
      if parsed.Failure? {
        return Failure(parsed.error);
      }
      ghost var before := seen;
      match parsed.value {
        case Single(shard) =>
          result, seen := AddShard(result, seen, shard);
        case Span(low, high) =>
          SpanEnds(entries[k]);
          result, seen := AddSpan(result, seen, low, high);
      }
      GatherNext(entries, k, before, seen);
    }
    assert entries[..|entries|] == entries;
    return Success(Sorted(result));
  }

  lemma SpanEnds(entry: RawEntry)
    requires !Endless(entry) && ParseEntry(entry).Success? && ParseEntry(entry).value.Span?
    ensures ParseEntry(entry).value.low <= ParseEntry(entry).value.high < U64 - 1
  {
    RangeTextIff(entry.text, ParseEntry(entry).value.low, ParseEntry(entry).value.high);
  }

  /** A list of non-negative integers is read to its end, and stands for exactly those integers. */
  lemma IntegersStandForThemselves(entries: seq<RawEntry>)
    requires forall i :: 0 <= i < |entries| ==> entries[i].IntEntry? && entries[i].value >= 0
    ensures Ends(entries) && forall i :: 0 <= i < |entries| ==> Readable(entries[i])
    ensures forall x :: Denoted(entries, x) <==> exists i :: 0 <= i < |entries| && entries[i].value == x
  {
    forall i | 0 <= i < |entries|
      ensures Readable(entries[i])
    {
      assert Means(entries[i], entries[i].value);
    }
    forall x: Uint64
      ensures Denoted(entries, x) <==> exists i :: 0 <= i < |entries| && entries[i].value == x
    {
      if i :| 0 <= i < |entries| && entries[i].value == x {
        assert Means(entries[i], x);
      }
    }
  }

  /** Such a list is read as its sorted set of integers. */
  method UnmarshalIntegers(values: seq<Uint64>) returns (r: Result<seq<Uint64>, EntryError>)
    requires forall i :: 0 <= i < |values| ==> values[i] < I64
    ensures r.Success? && StrictlyIncreasing(r.value) && forall x :: x in r.value <==> x in values
  {
    var entries := seq(|values|, i requires 0 <= i < |values| => IntEntry(values[i]));
    IntegersStandForThemselves(entries);
    r := UnmarshalActiveShards(entries);
    assert forall i :: 0 <= i < |values| ==> entries[i].value == values[i];
  }

  // ----- Validation and rates -----

  datatype TopicConfig = TopicConfig(totalShards: Uint64, activeShards: seq<Uint64>) {
    function SamplingRate(): real
      requires totalShards > 0
    {
      |activeShards| as real / totalShards as real
    }

    /** The length of a slice is an int, so the total is converted to one. */
    predicate IsFirehose() { |activeShards| == ToInt64(totalShards) }
  }

  datatype ConfigError = NoTotalShards | NoActiveShards | ShardOutOfRange(shard: Uint64)

  method Validate(cfg: TopicConfig) returns (r: Result<(), ConfigError>)
    ensures r.Success? <==> cfg.totalShards > 0 && cfg.activeShards != [] && forall s :: s in cfg.activeShards ==> s < cfg.totalShards
    ensures r == Failure(NoTotalShards) <==> cfg.totalShards == 0
    ensures r == Failure(NoActiveShards) <==> cfg.totalShards > 0 && cfg.activeShards == []
    ensures r.Failure? && r.error.ShardOutOfRange? ==> r.error.shard in cfg.activeShards && r.error.shard >= cfg.totalShards
  {
    if cfg.totalShards == 0 {
      return Failure(NoTotalShards);
    }
    if |cfg.activeShards| == 0 {
      return Failure(NoActiveShards);
    }
    for i := 0 to |cfg.activeShards|
      invariant forall j :: 0 <= j < i ==> cfg.activeShards[j] < cfg.totalShards
    {
      if cfg.activeShards[i] >= cfg.totalShards {
        assert cfg.activeShards[i] in cfg.activeShards;
        return Failure(ShardOutOfRange(cfg.activeShards[i]));
      }
    }
    return Success(());
  }

  /** What validation guarantees of a list that was unmarshalled. */
  predicate Valid(cfg: TopicConfig) {
    && cfg.totalShards > 0 && cfg.activeShards != []
    && StrictlyIncreasing(cfg.activeShards)
    && forall s :: s in cfg.activeShards ==> s < cfg.totalShards
  }

  /** Element i of a strictly increasing list is at least i, and leaves room for those after it. */
  lemma {:induction false} IncreasingBounds(s: seq<Uint64>, total: Uint64, i: nat)
    requires StrictlyIncreasing(s) && i < |s| && forall x :: x in s ==> x < total
    ensures i <= s[i] <= total - (|s| - i)
    decreases |s| - i
  {
    LowerBound(s, i);
    assert s[i] in s;
    if i + 1 < |s| {
      IncreasingBounds(s, total, i + 1);
    }
  }

  lemma {:induction false} LowerBound(s: seq<Uint64>, i: nat)
    requires StrictlyIncreasing(s) && i < |s|
    ensures i <= s[i]
  {
    if i > 0 {
      LowerBound(s, i - 1);
    }
  }

  /** Rates are compared as the fractions of shards they stand for. */
  lemma RateIsFraction(a: TopicConfig, b: TopicConfig)
    requires a.totalShards > 0 && b.totalShards > 0
    ensures a.SamplingRate() <= b.SamplingRate() <==> |a.activeShards| * b.totalShards <= |b.activeShards| * a.totalShards
  {
    CrossMultiply(|a.activeShards| as real, a.totalShards as real, |b.activeShards| as real, b.totalShards as real);
    ProductsAsReals(|a.activeShards|, b.totalShards);
    ProductsAsReals(|b.activeShards|, a.totalShards);
  }

  lemma ProductsAsReals(x: int, y: int)
    ensures (x * y) as real == x as real * y as real
  {
  }

  lemma CrossMultiply(x: real, y: real, z: real, w: real)
    requires y > 0.0 && w > 0.0
    ensures x / y <= z / w <==> x * w <= z * y
  {
    var p, q := x / y, z / w;
    assert p * y == x && q * w == z;
    if p <= q {
      Scaled(p, q, y * w);
      assert p * (y * w) == x * w && q * (y * w) == z * y;
    } else {
      Scaled(q, p, y * w);
      StrictlyScaled(q, p, y * w);
      assert p * (y * w) == x * w && q * (y * w) == z * y;
    }
  }

  lemma Scaled(p: real, q: real, k: real)
    requires p <= q && k >= 0.0
    ensures p * k <= q * k
  {
  }

  lemma StrictlyScaled(p: real, q: real, k: real)
    requires p < q && k > 0.0
    ensures p * k < q * k
  {
  }

  /** The sampling rate lies in (0, 1], and the list is a firehose exactly when it is 0 .. total - 1, which
      is exactly when the rate is 1. */
  lemma RateAndFirehose(cfg: TopicConfig)
    requires Valid(cfg) && |cfg.activeShards| < I64
    ensures 0.0 < cfg.SamplingRate() <= 1.0
    ensures cfg.IsFirehose() <==> |cfg.activeShards| == cfg.totalShards && forall i :: 0 <= i < cfg.totalShards ==> cfg.activeShards[i] == i
    ensures cfg.SamplingRate() == 1.0 <==> |cfg.activeShards| == cfg.totalShards
    ensures cfg.IsFirehose() <==> cfg.SamplingRate() == 1.0
  {
    var s := cfg.activeShards;
    IncreasingBounds(s, cfg.totalShards, 0);
    forall i | 0 <= i < |s|
      ensures i <= s[i] <= cfg.totalShards - (|s| - i)
    {
      IncreasingBounds(s, cfg.totalShards, i);
    }
    QuotientOfNats(|s|, cfg.totalShards);
  }

  lemma QuotientOfNats(x: nat, y: nat)
    requires 0 < x <= y
    ensures 0.0 < x as real / y as real <= 1.0
    ensures x as real / y as real == 1.0 <==> x == y
  {
    var a, b := x as real, y as real;
    var q := a / b;
    assert q * b == a;
    assert a / b <= b / b;
    if q == 1.0 {
      assert a == b;
    }
    if x == y {
      assert (q - 1.0) * b == 0.0;
    }
  }
}
