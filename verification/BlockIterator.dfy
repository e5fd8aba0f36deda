/**
 The execution block iterator: a persistent cursor with two ends, the head end walking up to the
 execution ceiling and the backfill end walking down to a floor.
 */
module BlockIterator {
  import opened Wrappers
  import opened MachineInts
  import opened CeilingWalk

  datatype Dataset = BalanceReads | StorageReads | NonceReads | FourByteCounts | OtherDataset

  datatype Config = Config(maxRangeSize: Uint64, backfillEnabled: bool, toBlock: Uint64, dataset: Dataset) {
    function MaxRange(): Uint64 {
      if maxRangeSize == 0 then 1 else maxRangeSize
    }

    /** The lowest block the dataset can be collected from: the four traced datasets skip genesis. */
    function MinBackfillBlock(): Uint64 {
      match dataset
      case BalanceReads | StorageReads | NonceReads | FourByteCounts => 1
      case OtherDataset => 0
    }

    function Floor(): Uint64 {
      if toBlock >= MinBackfillBlock() then toBlock else MinBackfillBlock()
    }
  }

  datatype Marker = Marker(finalized: Uint64, backfill: Int64)

  /** The coordinator's record: none, one without block data, or a marker. */
  datatype Location = NoLocation | NoMarker | At(marker: Marker)

  datatype Direction = HeadDirection | BackfillDirection | UnknownDirection

  /** An inclusive block range to process. */
  datatype Range = Range(from: Uint64, to: Uint64, direction: Direction) {
    predicate Holds(b: int) { from <= b <= to }
  }

  function MarkerOf(location: Location): Marker
    requires !location.NoLocation?
  {
    if location.At? then location.marker else Marker(0, -1)
  }

  function Min(x: Uint64, y: Uint64): Uint64 { if x <= y then x else y }

  function HeadRange(cfg: Config, finalized: Uint64, ceiling: Uint64): Range {
    var from := ToUint64(finalized + 1);
    Range(from, Min(ToUint64(ToUint64(from + cfg.MaxRange()) - 1), ceiling), HeadDirection)
  }

  function BackfillRange(cfg: Config, backfill: Int64): Range {
    var to := ToUint64(backfill - 1);
    var low := if ToUint64(to + 1) > cfg.MaxRange() then ToUint64(ToUint64(to + 1) - cfg.MaxRange()) else 0;
    Range(if low < cfg.Floor() then cfg.Floor() else low, to, BackfillDirection)
  }

  /** No location yet, or a location nothing was recorded in: the cursor is seeded at the ceiling. */
  predicate Unseeded(location: Location) {
    location.NoLocation? ||
    (MarkerOf(location).finalized == 0 && MarkerOf(location).backfill <= 0)
  }

  /** The range to process for a stored location and a ceiling; None when there is nothing to do. */
  function Pick(cfg: Config, location: Location, ceiling: Uint64): Option<Range> {
    if Unseeded(location) then Some(Range(ceiling, ceiling, HeadDirection))
    else
      var m := MarkerOf(location);
      if m.finalized < ceiling then Some(HeadRange(cfg, m.finalized, ceiling))
      else if cfg.backfillEnabled && m.backfill > ToInt64(cfg.Floor()) then Some(BackfillRange(cfg, m.backfill))
      else None
  }

  /** The stored location after a range has been processed. */
  function Advanced(location: Location, r: Range): Location {
    var m := if location.NoLocation? then Marker(r.to, ToInt64(r.from)) else MarkerOf(location);
    match r.direction
    case HeadDirection => At(Marker(r.to, if m.backfill <= 0 then ToInt64(r.from) else m.backfill))
    case BackfillDirection => At(Marker(m.finalized, ToInt64(r.from)))
    case UnknownDirection => location
  }

  /** One turn of Next's loop: the ceiling it reads, and whether the coordinator answers. */
  datatype Turn = Turn(ceiling: Result<Uint64, CeilingError>, coordinatorAnswers: bool)

  datatype NextResult = Picked(range: Range) | NextFailed | StillWaiting

  /** Next on a sequence of turns: the first that fails or finds a range decides. */
  function NextSpec(cfg: Config, location: Location, turns: seq<Turn>): NextResult {
    if turns == [] then StillWaiting
    else if turns[0].ceiling.Failure? || !turns[0].coordinatorAnswers then NextFailed
    else
      match Pick(cfg, location, turns[0].ceiling.value)
      case Some(r) => Picked(r)
      case None => NextSpec(cfg, location, turns[1..])
  }

  /** The iterator, with the coordinator's record of its location. */
  class BackfillingBlock {
    const cfg: Config
    var location: Location

    constructor (cfg: Config)
      ensures this.cfg == cfg && location == NoLocation
    {
      this.cfg := cfg;
      location := NoLocation;
    }

    /** Each turn that finds nothing to do sleeps until the next epoch. */
    method Next(turns: seq<Turn>) returns (r: NextResult)
      ensures r == NextSpec(cfg, location, turns)
    {
      var turn := 0;
      while turn < |turns|
        invariant turn <= |turns|
        invariant NextSpec(cfg, location, turns) == NextSpec(cfg, location, turns[turn..])
      {
        if turns[turn].ceiling.Failure? {
          return NextFailed;
        }
        var ceiling := turns[turn].ceiling.value;
        if !turns[turn].coordinatorAnswers {
          return NextFailed;
        }
        if location.NoLocation? {
          return Picked(Range(ceiling, ceiling, HeadDirection));
        }
        var marker := MarkerOf(location);
        if marker.finalized == 0 && marker.backfill <= 0 {
          return Picked(Range(ceiling, ceiling, HeadDirection));
        }
        if marker.finalized < ceiling {
          return Picked(HeadRange(cfg, marker.finalized, ceiling));
        }
        if cfg.backfillEnabled && marker.backfill > ToInt64(cfg.Floor()) {
          return Picked(BackfillRange(cfg, marker.backfill));
        }
        turn := turn + 1;
      }
      return StillWaiting;
    }

    /** A failed read or write, or an unknown direction, leaves the stored location as it was. */
    method UpdateLocation(r: Range, readAnswers: bool, writeAnswers: bool) returns (ok: bool)
      modifies this`location
      ensures ok <==> readAnswers && writeAnswers && !r.direction.UnknownDirection?
      ensures location == if ok then Advanced(old(location), r) else old(location)
    {
      if !readAnswers {
        return false;
      }
      var current := location;
      if current.NoLocation? {
        current := At(Marker(r.to, ToInt64(r.from)));
      }
      var marker := MarkerOf(current);
      match r.direction {
        case HeadDirection =>
          marker := marker.(finalized := r.to);
          if marker.backfill <= 0 {
            marker := marker.(backfill := ToInt64(r.from));
          }
        case BackfillDirection =>
          marker := marker.(backfill := ToInt64(r.from));
        case UnknownDirection =>
          return false;
      }
      if !writeAnswers {
        return false;
      }
      location := At(marker);
      return true;
    }
  }

  // ----- What is owed, from the cursor and the ceiling -----

  /** The range limit in force; 0 stands for 1. */
  function RangeLimit(cfg: Config): int { if cfg.maxRangeSize == 0 then 1 else cfg.maxRangeSize }

  /** The lowest block to backfill: toBlock, but not genesis for the datasets traced from parent state. */
  function LowestBlock(cfg: Config): int {
    var minimum: int := if cfg.dataset in {BalanceReads, StorageReads, NonceReads, FourByteCounts} then 1 else 0;
    if cfg.toBlock > minimum then cfg.toBlock else minimum
  }

  /** The lowest block as the int64 it is compared as. */
  function SignedLowest(cfg: Config): int {
    Signed(LowestBlock(cfg))
  }

  predicate Fresh(location: Location) {
    !location.At? || (location.marker.finalized == 0 && location.marker.backfill <= 0)
  }

  predicate HeadOwed(location: Location, ceiling: Uint64) {
    !Fresh(location) && location.marker.finalized < ceiling
  }

  predicate BackfillOwed(cfg: Config, location: Location, ceiling: Uint64) {
    && !Fresh(location) && !HeadOwed(location, ceiling) && cfg.backfillEnabled
    && location.marker.backfill > SignedLowest(cfg)
  }

  predicate NothingOwed(cfg: Config, location: Location, ceiling: Uint64) {
    !Fresh(location) && !HeadOwed(location, ceiling) && !BackfillOwed(cfg, location, ceiling)
  }

  function Larger(x: int, y: int): int { if x >= y then x else y }

  /** A fresh cursor owes the ceiling; one below the ceiling the blocks above it, as many as the limit allows
      and the ceiling has; one at the ceiling the blocks below its backfill end, as many as the limit allows and
      the lowest block leaves.  Sums are those of 64-bit integers. */
  predicate Owed(cfg: Config, location: Location, ceiling: Uint64, r: Range) {
    if Fresh(location) then r == Range(ceiling, ceiling, HeadDirection)
    else if HeadOwed(location, ceiling) then
      var last: int := (location.marker.finalized + RangeLimit(cfg)) % U64;
      r.direction == HeadDirection && r.from == location.marker.finalized + 1 && r.to == if last < ceiling then last else ceiling
    else
      && BackfillOwed(cfg, location, ceiling) && r.direction == BackfillDirection
      && r.to == (location.marker.backfill - 1) % U64
      && r.from == Larger(LowestBlock(cfg), location.marker.backfill % U64 - RangeLimit(cfg))
  }

  lemma ParametersAre(cfg: Config)
    ensures cfg.MaxRange() == RangeLimit(cfg) && cfg.Floor() == LowestBlock(cfg)
  {
  }

  lemma HeadRangeIsOwed(cfg: Config, finalized: Uint64, ceiling: Uint64)
    requires finalized < ceiling
    ensures var r := HeadRange(cfg, finalized, ceiling);
            var last: int := (finalized + RangeLimit(cfg)) % U64;
            && r.direction == HeadDirection && r.from == finalized + 1
            && r.to == if last < ceiling then last else ceiling
  {
    ParametersAre(cfg);
    assert ToUint64(finalized + 1) == finalized + 1;
    LessOneModulo(finalized + 1 + RangeLimit(cfg));
  }

  lemma LessOneModulo(x: int)
    ensures (x % U64 - 1) % U64 == (x - 1) % U64
  {
  }

  lemma BackfillRangeIsOwed(cfg: Config, backfill: Int64)
    ensures var r := BackfillRange(cfg, backfill);
            && r.direction == BackfillDirection && r.to == (backfill - 1) % U64
            && r.from == Larger(LowestBlock(cfg), backfill % U64 - RangeLimit(cfg))
  {
    ParametersAre(cfg);
    PlusOneModulo(backfill - 1);
    var whole: int := backfill % U64;
    assert ToUint64(ToUint64(backfill - 1) + 1) == whole;
    if whole > cfg.MaxRange() {
      assert ToUint64(whole - cfg.MaxRange()) == whole - cfg.MaxRange();
    }
  }

  lemma PlusOneModulo(x: int)
    ensures (x % U64 + 1) % U64 == (x + 1) % U64
  {
  }

  /** A range is picked exactly if it is the one owed, and none exactly if nothing is. */
  lemma PickIffOwed(cfg: Config, location: Location, ceiling: Uint64, r: Range)
    ensures Pick(cfg, location, ceiling) == Some(r) <==> Owed(cfg, location, ceiling, r)
    ensures Pick(cfg, location, ceiling).None? <==> NothingOwed(cfg, location, ceiling)
  {
    hide HeadRange, BackfillRange;
    ParametersAre(cfg);
    if location.At? {
      if location.marker.finalized < ceiling {
        HeadRangeIsOwed(cfg, location.marker.finalized, ceiling);
      }
      BackfillRangeIsOwed(cfg, location.marker.backfill);
    }
  }

  function Signed(x: int): int { if x < I64 then x else x - U64 }

  /** The cursor after a range: a head range raises the upper end to its last block and seeds the lower end
      where that was not positive; a backfill range lowers the lower end to its first block. */
  lemma AdvancedIs(location: Location, r: Range)
    ensures r.direction.UnknownDirection? ==> Advanced(location, r) == location
    ensures !r.direction.UnknownDirection? ==> Advanced(location, r).At?
    ensures r.direction.HeadDirection? ==>
              var m := Advanced(location, r).marker;
              m.finalized == r.to &&
              m.backfill == if location.At? && location.marker.backfill > 0 then location.marker.backfill else Signed(r.from)
    ensures r.direction.BackfillDirection? ==>
              var m := Advanced(location, r).marker;
              m.backfill == Signed(r.from) &&
              m.finalized == match location case At(was) => was.finalized case NoMarker => 0 case NoLocation => r.to
  {
  }

  predicate Answered(turn: Turn) { turn.ceiling.Success? && turn.coordinatorAnswers }

  predicate IdleTurn(cfg: Config, location: Location, turn: Turn) {
    Answered(turn) && NothingOwed(cfg, location, turn.ceiling.value)
  }

  /** The turns before k were answered, with nothing owed. */
  predicate IdleUntil(cfg: Config, location: Location, turns: seq<Turn>, k: nat) {
    k <= |turns| && forall j :: 0 <= j < k ==> IdleTurn(cfg, location, turns[j])
  }

  /** Next answers from the first turn that is not idle, whichever it is: with the range owed, or with a
      failure; as long as all turns were idle it goes on waiting. */
  lemma NextAnswers(cfg: Config, location: Location, turns: seq<Turn>)
    ensures forall r :: NextSpec(cfg, location, turns) == Picked(r) <==>
              exists k: nat :: k < |turns| && IdleUntil(cfg, location, turns, k) && Answered(turns[k])
                               && Owed(cfg, location, turns[k].ceiling.value, r)
    ensures NextSpec(cfg, location, turns) == NextFailed <==>
              exists k: nat :: k < |turns| && IdleUntil(cfg, location, turns, k) && !Answered(turns[k])
    ensures NextSpec(cfg, location, turns) == StillWaiting <==> IdleUntil(cfg, location, turns, |turns|)
  {
    hide Owed, NothingOwed, Pick;
    if k: nat :| k < |turns| && IdleUntil(cfg, location, turns, k) && !IdleTurn(cfg, location, turns[k]) {
      NextAt(cfg, location, turns, k);
      forall k': nat | k' < |turns| && IdleUntil(cfg, location, turns, k') && !IdleTurn(cfg, location, turns[k'])
        ensures k' == k
      {
      }
      forall r: Range
        ensures Answered(turns[k]) ==> (Pick(cfg, location, turns[k].ceiling.value) == Some(r) <==> Owed(cfg, location, turns[k].ceiling.value, r))
        ensures Answered(turns[k]) && Owed(cfg, location, turns[k].ceiling.value, r) ==> !IdleTurn(cfg, location, turns[k])
      {
        if Answered(turns[k]) {
          PickIffOwed(cfg, location, turns[k].ceiling.value, r);
        }
      }
      OwedIsNotIdle(cfg, location, turns);
    } else {
      AllIdle(cfg, location, turns, |turns|);
      OwedIsNotIdle(cfg, location, turns);
    }
  }

  lemma OwedIsNotIdle(cfg: Config, location: Location, turns: seq<Turn>)
    ensures forall k: nat, r: Range :: k < |turns| && Answered(turns[k]) && Owed(cfg, location, turns[k].ceiling.value, r) ==>
              !IdleTurn(cfg, location, turns[k])
  {
  }

  lemma {:induction false} AllIdle(cfg: Config, location: Location, turns: seq<Turn>, n: nat)
    requires n <= |turns|
    requires forall k: nat :: k < |turns| && IdleUntil(cfg, location, turns, k) ==> IdleTurn(cfg, location, turns[k])
    ensures IdleUntil(cfg, location, turns, n)
    ensures n == |turns| ==> NextSpec(cfg, location, turns) == StillWaiting
  {
    hide NothingOwed, Pick;
    if n > 0 {
      AllIdle(cfg, location, turns, n - 1);
    }
    if n == |turns| {
      NextWaits(cfg, location, turns);
    }
  }

  lemma {:induction false} NextWaits(cfg: Config, location: Location, turns: seq<Turn>)
    requires forall k :: 0 <= k < |turns| ==> IdleTurn(cfg, location, turns[k])
    ensures NextSpec(cfg, location, turns) == StillWaiting
  {
    hide NothingOwed, Pick;
    if turns != [] {
      assert IdleTurn(cfg, location, turns[0]);
      PickIffOwed(cfg, location, turns[0].ceiling.value, Range(0, 0, HeadDirection));
      NextWaits(cfg, location, turns[1..]);
    }
  }

  lemma {:induction false} NextAt(cfg: Config, location: Location, turns: seq<Turn>, k: nat)
    requires k < |turns| && IdleUntil(cfg, location, turns, k) && !IdleTurn(cfg, location, turns[k])
    ensures if Answered(turns[k]) then Pick(cfg, location, turns[k].ceiling.value).Some?
              && NextSpec(cfg, location, turns) == Picked(Pick(cfg, location, turns[k].ceiling.value).value)
            else NextSpec(cfg, location, turns) == NextFailed
  {
    hide NothingOwed, Pick;
    if Answered(turns[0]) {
      PickIffOwed(cfg, location, turns[0].ceiling.value, Range(0, 0, HeadDirection));
    }
    if k > 0 {
      assert IdleTurn(cfg, location, turns[0]);
      assert forall j :: 0 <= j < k - 1 ==> turns[1..][j] == turns[j + 1];
      NextAt(cfg, location, turns[1..], k - 1);
    }
  }

  // ----- Ranges -----

  /** A head range is non-empty, within the range limit and within the ceiling exactly when adding the
      range limit to the cursor does not wrap around. */
  lemma HeadRangeIff(cfg: Config, finalized: Uint64, ceiling: Uint64)
    requires finalized < ceiling
    ensures var r := HeadRange(cfg, finalized, ceiling);
            && (r.from <= r.to <==> finalized + RangeLimit(cfg) < U64)
            && (r.from <= r.to ==> r.from == finalized + 1 && r.to <= ceiling
                                   && r.to - r.from < RangeLimit(cfg)
                                   && (r.to == ceiling || r.to - r.from + 1 == RangeLimit(cfg)))
  {
    ParametersAre(cfg);
    var from := finalized + 1;
    assert ToUint64(from) == from;
    if finalized + RangeLimit(cfg) < U64 - 1 {
      assert ToUint64(ToUint64(from + RangeLimit(cfg)) - 1) == finalized + RangeLimit(cfg);
    } else if finalized + RangeLimit(cfg) == U64 - 1 {
      assert ToUint64(from + RangeLimit(cfg)) == 0;
      assert ToUint64(-1) == U64 - 1;
    } else {
      assert ToUint64(from + RangeLimit(cfg)) == from + RangeLimit(cfg) - U64;
    }
  }

  /** Where backfill is due, its range is non-empty and stays at or above the floor exactly when the
      floor fits an int64; it ends just below the cursor and is cut short only by the floor. */
  lemma BackfillRangeIff(cfg: Config, backfill: Int64)
    requires backfill > SignedLowest(cfg)
    ensures var r := BackfillRange(cfg, backfill);
            && (LowestBlock(cfg) <= r.from <= r.to < I64 <==> LowestBlock(cfg) < I64)
            && (LowestBlock(cfg) < I64 ==>
                  && r.to == backfill - 1 && r.to - r.from < RangeLimit(cfg)
                  && (r.from == LowestBlock(cfg) || r.to - r.from + 1 == RangeLimit(cfg)))
  {
    ParametersAre(cfg);
    if LowestBlock(cfg) < I64 {
      assert ToUint64(backfill - 1) == backfill - 1;
      assert ToUint64(backfill) == backfill;
    }
  }
}
