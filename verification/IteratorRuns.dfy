/**
 Whole runs of the block iterator: the ceiling advances, ranges are taken, processed and recorded,
 and the process may crash at any point in between and start again from the stored location.
 */
module IteratorRuns {
  import opened Wrappers
  import opened MachineInts
  import opened BlockIterator

  datatype Work = Idle | Taken(range: Range) | Processed(range: Range)

  /** `done` counts how often each block has been processed; it survives crashes, `work` does not. */
  datatype Run = Run(location: Location, ceiling: Uint64, done: multiset<int>, work: Work)

  datatype Action = Finalize(ceiling: Uint64) | Take | Process | Record | Crash(partial: multiset<int>)

  /** Room for the cursor arithmetic: no sum wraps and every block number fits an int64. */
  predicate Fits(cfg: Config, ceiling: Uint64) {
    ceiling + RangeLimit(cfg) < U64 && ceiling < I64 && LowestBlock(cfg) < I64
  }

  /** The blocks of an interval, each once. */
  ghost function Blocks(low: int, high: int): multiset<int>
    decreases high - low
  {
    if low > high then multiset{} else Blocks(low, high - 1) + multiset{high}
  }

  lemma {:induction false} BlocksCount(low: int, high: int)
    ensures forall b :: Blocks(low, high)[b] == if low <= b <= high then 1 else 0
    decreases high - low
  {
    if low <= high {
      BlocksCount(low, high - 1);
    }
  }

  lemma SameCounts(a: multiset<int>, b: multiset<int>)
    requires forall x :: a[x] == b[x]
    ensures a == b
  {
    forall x | x in a + b
      ensures a[x] == b[x]
    {
    }
  }

  ghost predicate Step(cfg: Config, s: Run, a: Action, s': Run) {
    match a
    case Finalize(ceiling) =>
      s.ceiling <= ceiling && Fits(cfg, ceiling) && s' == s.(ceiling := ceiling)
    case Take =>
      s.work.Idle? && Pick(cfg, s.location, s.ceiling).Some? &&
      s' == s.(work := Taken(Pick(cfg, s.location, s.ceiling).value))
    case Process =>
      s.work.Taken? &&
      s' == s.(work := Processed(s.work.range), done := s.done + Blocks(s.work.range.from, s.work.range.to))
    case Record =>
      s.work.Processed? && s' == s.(work := Idle, location := Advanced(s.location, s.work.range))
    case Crash(partial) =>
      // A crash may leave any part of a taken range processed.
      && (if s.work.Taken? then partial <= Blocks(s.work.range.from, s.work.range.to) else partial == multiset{})
      && s' == s.(work := Idle, done := s.done + partial)
  }

  function Initial(ceiling: Uint64): Run {
    Run(NoLocation, ceiling, multiset{}, Idle)
  }

  ghost predicate IsRun(cfg: Config, first: Uint64, states: seq<Run>, actions: seq<Action>) {
    && |states| == |actions| + 1
    && states[0] == Initial(first)
    && forall i :: 0 <= i < |actions| ==> Step(cfg, states[i], actions[i], states[i + 1])
  }

  predicate CrashFree(actions: seq<Action>) {
    forall i :: 0 <= i < |actions| ==> !actions[i].Crash?
  }

  // ----- Every run -----

  /** A range Pick gives for some ceiling up to the current one. */
  ghost predicate Due(cfg: Config, location: Location, ceiling: Uint64, r: Range) {
    exists c: Uint64 :: c <= ceiling && Fits(cfg, c) && Pick(cfg, location, c) == Some(r)
  }

  ghost predicate Invariant(cfg: Config, s: Run) {
    && Fits(cfg, s.ceiling)
    && !s.location.NoMarker?
    && (s.location.At? ==>
          var m := s.location.marker;
          && 0 <= m.backfill <= m.finalized <= s.ceiling
          && (forall b :: m.backfill <= b <= m.finalized ==> s.done[b] > 0))
    && (!s.work.Idle? ==> Due(cfg, s.location, s.ceiling, s.work.range))
    && (s.work.Processed? ==> forall b :: s.work.range.Holds(b) ==> s.done[b] > 0)
  }

  /** The shape of a range taken from a seeded location, free of wrap-around. */
  lemma DueShape(cfg: Config, m: Marker, ceiling: Uint64, r: Range)
    requires 0 <= m.backfill && Due(cfg, At(m), ceiling, r)
    ensures r.from <= r.to <= (if r.direction.HeadDirection? then ceiling else I64 - 1)
    ensures r.to - r.from < RangeLimit(cfg)
    ensures m.finalized == 0 && m.backfill == 0 ==> r.direction == HeadDirection && r.from == r.to
    ensures m.finalized > 0 || m.backfill > 0 ==>
              || (r.direction == HeadDirection && r.from == m.finalized + 1)
              || (r.direction == BackfillDirection && cfg.backfillEnabled && r.to == m.backfill - 1 && LowestBlock(cfg) <= r.from)
  {
    var c: Uint64 :| c <= ceiling && Fits(cfg, c) && Pick(cfg, At(m), c) == Some(r);
    if Unseeded(At(m)) {
    } else if m.finalized < c {
      HeadRangeIff(cfg, m.finalized, c);
    } else {
      BackfillRangeIff(cfg, m.backfill);
    }
  }

  lemma InvariantStep(cfg: Config, s: Run, a: Action, s': Run)
    requires Invariant(cfg, s) && Step(cfg, s, a, s')
    ensures Invariant(cfg, s')
  {
    match a {
      case Finalize(_) =>
      case Take =>
      case Process =>
        BlocksCount(s.work.range.from, s.work.range.to);
      case Record =>
        if s.location.At? {
          DueShape(cfg, s.location.marker, s.ceiling, s.work.range);
        }
      case Crash(_) =>
    }
  }

  lemma {:induction false} InvariantHolds(cfg: Config, first: Uint64, states: seq<Run>, actions: seq<Action>, k: nat)
    requires Fits(cfg, first) && IsRun(cfg, first, states, actions) && k < |states|
    ensures Invariant(cfg, states[k])
  {
    if k > 0 {
      InvariantHolds(cfg, first, states, actions, k - 1);
      InvariantStep(cfg, states[k - 1], actions[k - 1], states[k]);
    }
  }

  /** Crashes or not, every block between the two ends of the stored cursor has been processed, and
      the cursor never passes the ceiling. */
  lemma NoGap(cfg: Config, first: Uint64, states: seq<Run>, actions: seq<Action>, k: nat)
    requires Fits(cfg, first) && IsRun(cfg, first, states, actions) && k < |states|
    requires states[k].location.At?
    ensures var m := states[k].location.marker;
            m.finalized <= states[k].ceiling && forall b :: m.backfill <= b <= m.finalized ==> b in states[k].done
  {
    InvariantHolds(cfg, first, states, actions, k);
  }

  /** Every range taken in a run is non-empty, within the range limit and within the ceiling, and a
      backfill range stays at or above the floor. */
  lemma TakenRangesAreSound(cfg: Config, first: Uint64, states: seq<Run>, actions: seq<Action>, k: nat)
    requires Fits(cfg, first) && IsRun(cfg, first, states, actions)
    requires k < |actions| && actions[k].Take?
    ensures var r := states[k + 1].work.range;
            && r.from <= r.to <= states[k].ceiling
            && r.to - r.from + 1 <= RangeLimit(cfg)
            && (r.direction == BackfillDirection ==> LowestBlock(cfg) <= r.from)
  {
    InvariantHolds(cfg, first, states, actions, k);
    var s := states[k];
    assert Step(cfg, s, actions[k], states[k + 1]);
    if s.location.At? {
      assert Due(cfg, s.location, s.ceiling, states[k + 1].work.range);
      DueShape(cfg, s.location.marker, s.ceiling, states[k + 1].work.range);
    }
  }

  // ----- Crash-free runs -----

  /** The condition under which backfill never ends at block 0, where the cursor would be seeded anew. */
  predicate NeverReseeds(cfg: Config, first: Uint64) {
    first >= 1 && (!cfg.backfillEnabled || LowestBlock(cfg) >= 1)
  }

  function Times(b: bool): nat { if b then 1 else 0 }

  ghost predicate OnceInvariant(cfg: Config, s: Run) {
    && Invariant(cfg, s)
    && s.ceiling >= 1
    && (s.location.NoLocation? && !s.work.Idle? ==> s.work.range.from >= 1)
    && (s.location.At? ==> s.location.marker.backfill >= 1)
    && forall b :: s.done[b] ==
         Times(s.location.At? && s.location.marker.backfill <= b <= s.location.marker.finalized)
         + Times(s.work.Processed? && s.work.range.Holds(b))
  }

  lemma OnceStep(cfg: Config, s: Run, a: Action, s': Run)
    requires OnceInvariant(cfg, s) && Step(cfg, s, a, s') && !a.Crash?
    requires cfg.backfillEnabled ==> LowestBlock(cfg) >= 1
    ensures OnceInvariant(cfg, s')
  {
    InvariantStep(cfg, s, a, s');
    match a {
      case Finalize(_) =>
      case Take =>
      case Process =>
        BlocksCount(s.work.range.from, s.work.range.to);
      case Record =>
        if s.location.At? {
          DueShape(cfg, s.location.marker, s.ceiling, s.work.range);
        }
    }
  }

  lemma {:induction false} OnceHolds(cfg: Config, first: Uint64, states: seq<Run>, actions: seq<Action>, k: nat)
    requires Fits(cfg, first) && NeverReseeds(cfg, first)
    requires IsRun(cfg, first, states, actions) && CrashFree(actions) && k < |states|
    ensures OnceInvariant(cfg, states[k])
  {
    if k > 0 {
      OnceHolds(cfg, first, states, actions, k - 1);
      OnceStep(cfg, states[k - 1], actions[k - 1], states[k]);
    }
  }

  /** In a crash-free run that never reseeds, between ranges, exactly the blocks between the two ends
      of the cursor have been processed, each once. */
  lemma ProcessedIsInterval(cfg: Config, first: Uint64, states: seq<Run>, actions: seq<Action>, k: nat)
    requires Fits(cfg, first) && NeverReseeds(cfg, first)
    requires IsRun(cfg, first, states, actions) && CrashFree(actions)
    requires k < |states| && states[k].work.Idle?
    ensures if states[k].location.At?
            then states[k].done == Blocks(states[k].location.marker.backfill, states[k].location.marker.finalized)
            else states[k].done == multiset{}
  {
    OnceHolds(cfg, first, states, actions, k);
    var s := states[k];
    if s.location.At? {
      var m := s.location.marker;
      BlocksCount(m.backfill, m.finalized);
      SameCounts(s.done, Blocks(m.backfill, m.finalized));
    } else {
      SameCounts(s.done, multiset{});
    }
  }

  // ----- When a block is processed twice -----

  /** No crash-free run processes a block twice. */
  ghost predicate ExactlyOnce(cfg: Config, first: Uint64) {
    forall states: seq<Run>, actions: seq<Action>, k: nat, b: int ::
      IsRun(cfg, first, states, actions) && CrashFree(actions) && k < |states| ==> states[k].done[b] <= 1
  }

  /** Some crash-free run ends in s. */
  ghost predicate Reachable(cfg: Config, first: Uint64, s: Run) {
    exists states: seq<Run>, actions: seq<Action> :: IsRun(cfg, first, states, actions) && CrashFree(actions) && states[|actions|] == s
  }

  lemma InitialReachable(cfg: Config, first: Uint64)
    ensures Reachable(cfg, first, Initial(first))
  {
    var states, actions: seq<Action> := [Initial(first)], [];
    assert IsRun(cfg, first, states, actions) && states[|actions|] == Initial(first);
  }

  lemma ExtendRun(cfg: Config, first: Uint64, s: Run, a: Action, s': Run)
    requires Reachable(cfg, first, s) && Step(cfg, s, a, s') && !a.Crash?
    ensures Reachable(cfg, first, s')
  {
    var states: seq<Run>, actions: seq<Action> :| IsRun(cfg, first, states, actions) && CrashFree(actions) && states[|actions|] == s;
    var states', actions' := states + [s'], actions + [a];
    forall i | 0 <= i < |actions'|
      ensures Step(cfg, states'[i], actions'[i], states'[i + 1])
    {
      if i < |actions| {
        assert Step(cfg, states[i], actions[i], states[i + 1]);
      }
    }
    assert IsRun(cfg, first, states', actions') && states'[|actions'|] == s';
  }

  /** The state one whole round later: the due range taken, processed and recorded. */
  ghost function AfterRound(cfg: Config, s: Run): Run
    requires s.work.Idle? && Pick(cfg, s.location, s.ceiling).Some?
  {
    var r := Pick(cfg, s.location, s.ceiling).value;
    Run(Advanced(s.location, r), s.ceiling, s.done + Blocks(r.from, r.to), Idle)
  }

  lemma RoundReachable(cfg: Config, first: Uint64, s: Run)
    requires Reachable(cfg, first, s) && s.work.Idle? && Pick(cfg, s.location, s.ceiling).Some?
    ensures Reachable(cfg, first, AfterRound(cfg, s))
  {
    var r := Pick(cfg, s.location, s.ceiling).value;
    var taken := s.(work := Taken(r));
    var processed := taken.(work := Processed(r), done := s.done + Blocks(r.from, r.to));
    ExtendRun(cfg, first, s, Take, taken);
    ExtendRun(cfg, first, taken, Process, processed);
    ExtendRun(cfg, first, processed, Record, AfterRound(cfg, s));
  }

  /** Backfill rounds at a fixed ceiling bring the cursor of a run down to block 0. */
  lemma {:induction false} BackfillReachesZero(cfg: Config, first: Uint64, s: Run) returns (s': Run)
    requires cfg.backfillEnabled && LowestBlock(cfg) == 0 && Fits(cfg, s.ceiling)
    requires Reachable(cfg, first, s) && s.work.Idle? && s.location.At?
    requires s.location.marker.finalized == s.ceiling >= 1 && 0 <= s.location.marker.backfill
    ensures Reachable(cfg, first, s') && s'.work.Idle? && s'.ceiling == s.ceiling
    ensures s'.location == At(Marker(s.ceiling, 0)) && s.done <= s'.done
    decreases s.location.marker.backfill
  {
    if s.location.marker.backfill == 0 {
      s' := s;
    } else {
      BackfillRangeIff(cfg, s.location.marker.backfill);
      RoundReachable(cfg, first, s);
      s' := BackfillReachesZero(cfg, first, AfterRound(cfg, s));
    }
  }

  /** From a first ceiling of 0 the single-block seed range is taken again and again. */
  lemma ZeroCeilingRepeats(cfg: Config)
    requires Fits(cfg, 0)
    ensures !ExactlyOnce(cfg, 0)
  {
    InitialReachable(cfg, 0);
    var once := AfterRound(cfg, Initial(0));
    RoundReachable(cfg, 0, Initial(0));
    var twice := AfterRound(cfg, once);
    RoundReachable(cfg, 0, once);
    BlocksCount(0, 0);
    assert twice.done[0] == 2;
    RefuteOnce(cfg, 0, twice, 0);
  }

  lemma RefuteOnce(cfg: Config, first: Uint64, s: Run, b: int)
    requires Reachable(cfg, first, s) && s.done[b] > 1
    ensures !ExactlyOnce(cfg, first)
  {
    var states: seq<Run>, actions: seq<Action> :| IsRun(cfg, first, states, actions) && CrashFree(actions) && states[|actions|] == s;
    assert states[|actions|].done[b] > 1;
  }

  /** With a floor of 0 a finished backfill starts over at the next head advance. */
  lemma ZeroFloorRepeats(cfg: Config, first: Uint64)
    requires cfg.backfillEnabled && LowestBlock(cfg) == 0
    requires first >= 1 && first + 1 < U64 && Fits(cfg, first + 1)
    ensures !ExactlyOnce(cfg, first)
  {
    InitialReachable(cfg, first);
    RoundReachable(cfg, first, Initial(first));
    var seeded := AfterRound(cfg, Initial(first));
    BlocksCount(first, first);
    assert seeded.done[first] == 1;
    var bottom := BackfillReachesZero(cfg, first, seeded);
    assert bottom.done[first] >= 1;
    var raised := bottom.(ceiling := first + 1);
    ExtendRun(cfg, first, bottom, Finalize(first + 1), raised);
    HeadRangeIff(cfg, first, first + 1);
    RoundReachable(cfg, first, raised);
    var reseeded := AfterRound(cfg, raised);
    assert reseeded.location == At(Marker(first + 1, first + 1));
    BackfillRangeIff(cfg, first + 1);
    RoundReachable(cfg, first, reseeded);
    var again := AfterRound(cfg, reseeded);
    var r := Pick(cfg, reseeded.location, reseeded.ceiling).value;
    BlocksCount(r.from, r.to);
    assert r.Holds(first);
    RefuteOnce(cfg, first, again, first);
  }

  /** Crash-free runs process no block twice exactly when the first ceiling is at least 1 and backfill,
      if enabled, stops above block 0. */
  lemma ExactlyOnceIff(cfg: Config, first: Uint64)
    requires first + 1 < U64 && Fits(cfg, first + 1)
    ensures ExactlyOnce(cfg, first) <==> NeverReseeds(cfg, first)
  {
    if NeverReseeds(cfg, first) {
      forall states: seq<Run>, actions: seq<Action>, k: nat, b: int
        | IsRun(cfg, first, states, actions) && CrashFree(actions) && k < |states|
        ensures states[k].done[b] <= 1
      {
        OnceHolds(cfg, first, states, actions, k);
        var s := states[k];
        if s.location.At? && s.work.Processed? {
          DueShape(cfg, s.location.marker, s.ceiling, s.work.range);
        }
      }
    } else if first == 0 {
      ZeroCeilingRepeats(cfg);
    } else {
      ZeroFloorRepeats(cfg, first);
    }
  }

  // ----- Rounds at a fixed ceiling -----

  /** The number of steps of at most y that x takes. */
  function CeilDiv(x: nat, y: nat): nat
    requires y > 0
  {
    if x == 0 then 0 else if x <= y then 1 else 1 + CeilDiv(x - y, y)
  }

  /** CeilDiv is the quotient rounded up. */
  lemma {:induction false} CeilDivIsQuotient(x: nat, y: nat)
    requires y > 0
    ensures (CeilDiv(x, y) - 1) * y < x <= CeilDiv(x, y) * y || x == CeilDiv(x, y) == 0
  {
    if x > y {
      CeilDivIsQuotient(x - y, y);
    }
  }

  function Positive(x: int): nat { if x > 0 then x else 0 }

  /** The rounds left until the cursor is caught up: head ranges, then backfill ranges. */
  function RoundsLeft(cfg: Config, m: Marker, ceiling: Uint64): nat {
    CeilDiv(Positive(ceiling - m.finalized), RangeLimit(cfg))
    + if cfg.backfillEnabled then CeilDiv(Positive(m.backfill - LowestBlock(cfg)), RangeLimit(cfg)) else 0
  }

  /** There is something to do exactly while rounds are left, and each round uses up exactly one. */
  lemma RoundsCountDown(cfg: Config, m: Marker, ceiling: Uint64)
    requires Fits(cfg, ceiling) && 1 <= m.backfill <= m.finalized <= ceiling
    requires cfg.backfillEnabled ==> LowestBlock(cfg) >= 1
    ensures Pick(cfg, At(m), ceiling).Some? <==> RoundsLeft(cfg, m, ceiling) > 0
    ensures Pick(cfg, At(m), ceiling).Some? ==>
              (Pick(cfg, At(m), ceiling).value.direction == HeadDirection <==> m.finalized < ceiling)
    ensures Pick(cfg, At(m), ceiling).Some? ==>
              var m' := Advanced(At(m), Pick(cfg, At(m), ceiling).value).marker;
              && 1 <= m'.backfill <= m'.finalized <= ceiling
              && RoundsLeft(cfg, m', ceiling) == RoundsLeft(cfg, m, ceiling) - 1
  {
    if m.finalized < ceiling {
      HeadRangeIff(cfg, m.finalized, ceiling);
    } else if cfg.backfillEnabled && m.backfill > LowestBlock(cfg) {
      BackfillRangeIff(cfg, m.backfill);
    }
  }

  /** Block b is still to be processed at a fixed ceiling: above the head end, or below the backfill end. */
  predicate Missing(cfg: Config, m: Marker, ceiling: Uint64, b: int) {
    m.finalized < b <= ceiling || (cfg.backfillEnabled && LowestBlock(cfg) <= b < m.backfill)
  }

  /** One round processes blocks that were missing, which then no longer are. */
  lemma RoundFillsMissing(cfg: Config, m: Marker, ceiling: Uint64)
    requires Fits(cfg, ceiling) && 1 <= m.backfill <= m.finalized <= ceiling
    requires Pick(cfg, At(m), ceiling).Some?
    ensures var r := Pick(cfg, At(m), ceiling).value;
            var m' := Advanced(At(m), r).marker;
            && (forall b :: Blocks(r.from, r.to)[b] + Times(Missing(cfg, m', ceiling, b)) == Times(Missing(cfg, m, ceiling, b)))
            && (m'.backfill == m.backfill || (cfg.backfillEnabled && m.backfill > m'.backfill >= LowestBlock(cfg)))
  {
    var r := Pick(cfg, At(m), ceiling).value;
    BlocksCount(r.from, r.to);
    if m.finalized < ceiling {
      HeadRangeIff(cfg, m.finalized, ceiling);
    } else {
      BackfillRangeIff(cfg, m.backfill);
    }
  }

  /** A location a run without crashes can stand at: not seeded yet, or with both ends above block 0. */
  predicate Startable(location: Location, ceiling: Uint64) {
    || Unseeded(location)
    || 1 <= location.marker.backfill <= location.marker.finalized <= ceiling
  }

  /** The cursor of a location; an unseeded one will start with both ends at the ceiling. */
  function Cursor(location: Location, ceiling: Uint64): Marker
    requires Startable(location, ceiling)
  {
    if Unseeded(location) then Marker(ceiling, ToInt64(ceiling)) else location.marker
  }

  /** The rounds left from a location, the seed round of a fresh one included. */
  function RoundsFrom(cfg: Config, location: Location, ceiling: Uint64): nat
    requires Startable(location, ceiling)
  {
    RoundsLeft(cfg, Cursor(location, ceiling), ceiling) + if Unseeded(location) then 1 else 0
  }

  /** Block b is still to be processed from a location: for a fresh one the ceiling itself too. */
  predicate MissingFrom(cfg: Config, location: Location, ceiling: Uint64, b: int)
    requires Startable(location, ceiling)
  {
    Missing(cfg, Cursor(location, ceiling), ceiling, b) || (Unseeded(location) && b == ceiling)
  }

  lemma SeedRound(cfg: Config, location: Location, ceiling: Uint64)
    requires Fits(cfg, ceiling) && ceiling >= 1 && Unseeded(location)
    ensures var r := Range(ceiling, ceiling, HeadDirection);
            && Pick(cfg, location, ceiling) == Some(r) && Advanced(location, r) == At(Cursor(location, ceiling))
            && !Unseeded(At(Cursor(location, ceiling)))
            && forall b :: Blocks(r.from, r.to)[b] == Times(b == ceiling)
  {
    BlocksCount(ceiling, ceiling);
  }

  /** One round from any location: it is there exactly while rounds are left, uses up one, and processes
      missing blocks, which then no longer are. */
  lemma RoundFrom(cfg: Config, location: Location, ceiling: Uint64)
    requires Fits(cfg, ceiling) && ceiling >= 1 && Startable(location, ceiling)
    requires cfg.backfillEnabled ==> LowestBlock(cfg) >= 1
    ensures Pick(cfg, location, ceiling).Some? <==> RoundsFrom(cfg, location, ceiling) > 0
    ensures Pick(cfg, location, ceiling).Some? ==>
              var r := Pick(cfg, location, ceiling).value;
              var location' := Advanced(location, r);
              && Startable(location', ceiling) && !Unseeded(location')
              && RoundsFrom(cfg, location', ceiling) == RoundsFrom(cfg, location, ceiling) - 1
              && (forall b :: Blocks(r.from, r.to)[b] + Times(MissingFrom(cfg, location', ceiling, b))
                              == Times(MissingFrom(cfg, location, ceiling, b)))
              && (Cursor(location', ceiling).backfill == Cursor(location, ceiling).backfill
                  || (cfg.backfillEnabled && Cursor(location, ceiling).backfill > Cursor(location', ceiling).backfill >= LowestBlock(cfg)))
  {
    hide RoundsLeft;
    if Unseeded(location) {
      SeedRound(cfg, location, ceiling);
    } else {
      hide Pick, Advanced;
      assert location == At(location.marker);
      RoundsCountDown(cfg, location.marker, ceiling);
      if Pick(cfg, location, ceiling).Some? {
        RoundFillsMissing(cfg, location.marker, ceiling);
        AdvancedIsAt(location, Pick(cfg, location, ceiling).value);
      }
    }
  }

  lemma AdvancedIsAt(location: Location, r: Range)
    requires location.At?
    ensures Advanced(location, r).At?
  {
  }

  /** The deriver's loop at a fixed ceiling, without failures, from a fresh or an earlier location: it takes
      exactly the predicted number of rounds and processes exactly the missing blocks, each once. */
  method CatchUp(it: BackfillingBlock, ceiling: Uint64) returns (rounds: nat, ghost done: multiset<int>)
    requires Fits(it.cfg, ceiling) && (it.cfg.backfillEnabled ==> LowestBlock(it.cfg) >= 1)
    requires ceiling >= 1 && Startable(it.location, ceiling)
    modifies it
    ensures rounds == old(RoundsFrom(it.cfg, it.location, ceiling))
    ensures forall b :: done[b] == old(Times(MissingFrom(it.cfg, it.location, ceiling, b)))
    ensures Startable(it.location, ceiling) && !Unseeded(it.location)
    ensures it.location.marker.finalized == ceiling
    ensures var start := old(Cursor(it.location, ceiling)).backfill;
            it.location.marker.backfill ==
              if it.cfg.backfillEnabled && start > LowestBlock(it.cfg) then LowestBlock(it.cfg) else start
  {
    hide Pick, RoundsLeft, Advanced;
    var cfg := it.cfg;
    ghost var start := it.location;
    rounds, done := 0, multiset{};
    var turns := [Turn(Success(ceiling), true)];
    var picked := it.Next(turns);
    while picked.Picked?
      invariant Startable(it.location, ceiling)
      invariant picked == NextSpec(cfg, it.location, turns)
      invariant rounds + RoundsFrom(cfg, it.location, ceiling) == RoundsFrom(cfg, start, ceiling)
      invariant forall b :: done[b] + Times(MissingFrom(cfg, it.location, ceiling, b)) == Times(MissingFrom(cfg, start, ceiling, b))
      invariant Cursor(it.location, ceiling).backfill == Cursor(start, ceiling).backfill
             || (cfg.backfillEnabled && Cursor(start, ceiling).backfill > Cursor(it.location, ceiling).backfill >= LowestBlock(cfg))
      decreases RoundsFrom(cfg, it.location, ceiling)
    {
      NextOneTurn(cfg, it.location, ceiling);
      RoundFrom(cfg, it.location, ceiling);
      var r := picked.range;
      DirectionKnown(cfg, it.location, ceiling);
      done := done + Blocks(r.from, r.to);
      var ok := it.UpdateLocation(r, true, true);
      rounds := rounds + 1;
      picked := it.Next(turns);
    }
    NextOneTurn(cfg, it.location, ceiling);
    RoundFrom(cfg, it.location, ceiling);
    NoRoundsLeft(cfg, it.location, ceiling);
  }

  lemma DirectionKnown(cfg: Config, location: Location, ceiling: Uint64)
    requires Pick(cfg, location, ceiling).Some?
    ensures !Pick(cfg, location, ceiling).value.direction.UnknownDirection?
  {
  }

  lemma NoRoundsLeft(cfg: Config, location: Location, ceiling: Uint64)
    requires Startable(location, ceiling) && RoundsFrom(cfg, location, ceiling) == 0
    ensures !Unseeded(location) && location.marker.finalized == ceiling
    ensures cfg.backfillEnabled ==> location.marker.backfill <= LowestBlock(cfg)
    ensures forall b :: !MissingFrom(cfg, location, ceiling, b)
  {
  }

  lemma NextOneTurn(cfg: Config, location: Location, ceiling: Uint64)
    ensures NextSpec(cfg, location, [Turn(Success(ceiling), true)]) ==
              match Pick(cfg, location, ceiling) case Some(r) => Picked(r) case None => StillWaiting
  {
    assert [Turn(Success(ceiling), true)][1..] == [];
  }
}
