/**
 Cached reads of beacon blocks and execution payload envelopes from a node that may lack history,
 with a block archive in front of it.
 */
module BeaconNode {
  import opened Wrappers
  import opened Chain

  datatype Id = BySlot(slot: Slot) | ByRoot(root: Root)

  /** The payload a Gloas block promised, as its envelope discloses it. */
  datatype Envelope = Envelope(hash: Hash, number: nat)

  datatype EnvelopeAnswer = NotFound | RequestFailed | NoData | Data(envelope: Envelope)

  /** One slot of an archived range: no block for a missed slot, no envelope for a withheld payload. */
  datatype ArchivedSlot = ArchivedSlot(block: Option<Block>, envelopeKnown: bool, envelope: Option<Envelope>)

  type ArchivedRange = map<Slot, ArchivedSlot>

  /** How the outside answers: the node's blocks, headers (a block's slot by its root) and envelopes, its
      spec, and the archive's ranges and envelope coverage. */
  datatype View = View(
    block: Id -> Fetch<Block>,
    header: Root -> Fetch<Slot>,
    envelope: Id -> EnvelopeAnswer,
    slotsPerEpoch: Option<nat>,
    archive: Slot -> Fetch<ArchivedRange>,
    archiveHasEnvelopes: Slot -> bool)

  /** A cache keyed by identifier: slot numbers and roots never collide.  None is a cached "nothing there". */
  datatype Cache<V> = Cache(bySlot: map<Slot, Option<V>>, byRoot: map<Root, Option<V>>) {
    predicate Has(id: Id) {
      match id
      case BySlot(slot) => slot in bySlot
      case ByRoot(root) => root in byRoot
    }

    function Get(id: Id): Option<V>
      requires Has(id)
    {
      match id
      case BySlot(slot) => bySlot[slot]
      case ByRoot(root) => byRoot[root]
    }

    function Set(id: Id, v: Option<V>): Cache<V> {
      match id
      case BySlot(slot) => this.(bySlot := bySlot[slot := v])
      case ByRoot(root) => this.(byRoot := byRoot[root := v])
    }
  }

  type BlockCache = Cache<Block>
  type EnvelopeCache = Cache<Envelope>

  datatype ReadError =
    | BlockRequestFailed
    | SpecUnavailable
    | HeaderRequestFailed
    | HistoryTooShort
    | ParentNotOlder
    | NoBlockAfter
    | NoSuchBlock
    | NotGloas
    | BidsInconsistent
    | EnvelopeRequestFailed
    | EnvelopeNotFound
    | RevealUndetermined(cause: ReadError)

  // ----- Confirming a missed slot -----

  // The node may change between the requests of one confirmation: request 0 is for the spec, request i for
  // the block i slots after the missed one, and the request after the block found for its parent's header.

  /** The first offset from i to last at which the node does not answer with "no block". */
  function FirstAnswered(views: nat -> View, slot: Slot, i: nat, last: nat): (r: Option<nat>)
    ensures r.Some? ==> i <= r.value <= last && !views(r.value).block(BySlot(slot + r.value)).Absent?
    ensures forall j: nat {:trigger views(j)} :: i <= j <= last && (r.Some? ==> j < r.value) ==> views(j).block(BySlot(slot + j)).Absent?
    decreases last + 1 - i
  {
    if i > last then None
    else if !views(i).block(BySlot(slot + i)).Absent? then Some(i)
    else FirstAnswered(views, slot, i + 1, last)
  }

  lemma FirstAnsweredStep(views: nat -> View, slot: Slot, i: nat, last: nat)
    ensures FirstAnswered(views, slot, i, last) ==
              if i > last then None
              else if !views(i).block(BySlot(slot + i)).Absent? then Some(i)
              else FirstAnswered(views, slot, i + 1, last)
  {
  }

  /** The slots after an unanswered slot that are searched for the next block. */
  function Lookahead(view: View): nat
    requires view.slotsPerEpoch.Some?
  {
    2 * view.slotsPerEpoch.value
  }

  /** Whether the block that follows the slot names a parent older than the slot. */
  function ParentCheck(view: View, slot: Slot, next: Block): Result<(), ReadError> {
    match view.header(next.parentRoot)
    case Failed => Failure(HeaderRequestFailed)
    case Absent => Failure(HistoryTooShort)
    case Found(parentSlot) => if parentSlot >= slot then Failure(ParentNotOlder) else Success(())
  }

  function ConfirmMissed(views: nat -> View, slot: Slot): Result<(), ReadError> {
    if views(0).slotsPerEpoch.None? then Failure(SpecUnavailable)
    else
      match FirstAnswered(views, slot, 1, Lookahead(views(0)))
      case None => Failure(NoBlockAfter)
      case Some(n) =>
        match views(n).block(BySlot(slot + n))
        case Failed => Failure(BlockRequestFailed)
        case Found(block) => ParentCheck(views(n + 1), slot, block)
  }

  /** The block cache after a confirmation: the block found after the slot, if any, is kept. */
  function BlocksAfterConfirm(blocks: BlockCache, views: nat -> View, slot: Slot): BlockCache {
    if views(0).slotsPerEpoch.None? then blocks
    else
      match FirstAnswered(views, slot, 1, Lookahead(views(0)))
      case None => blocks
      case Some(n) =>
        var answer := views(n).block(BySlot(slot + n));
        if answer.Found? then blocks.Set(BySlot(slot + n), Some(answer.value)) else blocks
  }

  // ----- Reading a block -----

  /** The archive's range for an identifier; roots are never looked up there. */
  function RangeFor(view: View, id: Id): ArchivedRange {
    if id.BySlot? && view.archive(id.slot).Found? then view.archive(id.slot).value else map[]
  }

  function FillBlocks(blocks: BlockCache, range: ArchivedRange): BlockCache {
    blocks.(bySlot := blocks.bySlot + map s | s in range :: range[s].block)
  }

  function FillEnvelopes(envelopes: EnvelopeCache, range: ArchivedRange): EnvelopeCache {
    envelopes.(bySlot := envelopes.bySlot + map s | s in range && range[s].envelopeKnown :: range[s].envelope)
  }

  predicate Archived(view: View, id: Id) { id.BySlot? && id.slot in RangeFor(view, id) }

  /** A call's result and the caches it leaves. */
  datatype Done<+T> = Done(result: T, blocks: BlockCache, envelopes: EnvelopeCache)

  /** The outside and the caches at one lookup, and the outside as a confirmation made for it meets it:
      between two lookups of one call the node's answers may change, and other callers may fill or evict any
      cache entries. */
  datatype World = World(view: View, later: nat -> View, blocks: BlockCache, envelopes: EnvelopeCache)

  type BlockRead = Result<Option<Block>, ReadError>

  function ReadBlock(w: World, id: Id): Done<BlockRead> {
    if w.blocks.Has(id) then Done(Success(w.blocks.Get(id)), w.blocks, w.envelopes)
    else
      var range := RangeFor(w.view, id);
      ReadUncached(w.(blocks := FillBlocks(w.blocks, range), envelopes := FillEnvelopes(w.envelopes, range)), id)
  }

  /** The read once the archive has been asked and the caches hold its range. */
  function ReadUncached(w: World, id: Id): Done<BlockRead> {
    if Archived(w.view, id) then Done(Success(RangeFor(w.view, id)[id.slot].block), w.blocks, w.envelopes)
    else
      match w.view.block(id)
      case Failed => Done(Failure(BlockRequestFailed), w.blocks, w.envelopes)
      case Found(block) => Done(Success(Some(block)), w.blocks.Set(id, Some(block)), w.envelopes)
      case Absent =>
        if id.ByRoot? then Done(Success(None), w.blocks.Set(id, None), w.envelopes)
        else
          var confirmed := BlocksAfterConfirm(w.blocks, w.later, id.slot);
          match ConfirmMissed(w.later, id.slot)
          case Failure(error) => Done(Failure(error), confirmed, w.envelopes)
          case Success(_) => Done(Success(None), confirmed.Set(id, None), w.envelopes)
  }

  // ----- Withheld payloads -----

  /** From two consecutive canonical bids, whether the earlier one's payload was withheld. */
  function BidPayloadWithheld(bid: Body, nextBid: Body): Result<bool, ReadError>
    requires bid.Bid? && nextBid.Bid?
  {
    if nextBid.parentHash == bid.blockHash then Success(false)
    else if nextBid.parentHash == bid.parentHash then Success(true)
    else Failure(BidsInconsistent)
  }

  type Decision = Result<bool, ReadError>

  /** What a lookup after the block decides; None to look at the next slot. */
  function Decide(bid: Body, read: BlockRead): Option<Decision>
    requires bid.Bid?
  {
    match read
    case Failure(error) => Some(Failure(error))
    case Success(None) => None
    case Success(Some(next)) =>
      Some(if next.body.Bid? then BidPayloadWithheld(bid, next.body) else Failure(NotGloas))
  }

  /** The lookup of each slot after the given one, as the search makes it. */
  function Lookups(world: nat -> World, slot: Slot): nat -> Done<BlockRead> {
    (i: nat) => ReadBlock(world(i), BySlot(slot + i))
  }

  /** The search through lookups i to lookahead, after a lookup that left the given caches. */
  function Search(lookup: nat -> Done<BlockRead>, bid: Body, i: nat, lookahead: nat,
                  blocks: BlockCache, envelopes: EnvelopeCache): Done<Decision>
    requires bid.Bid?
    decreases lookahead + 1 - i
  {
    if i > lookahead then Done(Failure(NoBlockAfter), blocks, envelopes)
    else
      var read := lookup(i);
      match Decide(bid, read.result)
      case Some(decision) => Done(decision, read.blocks, read.envelopes)
      case None => Search(lookup, bid, i + 1, lookahead, read.blocks, read.envelopes)
  }

  function Withheld(world: nat -> World, id: Id): Done<Decision> {
    var read := ReadBlock(world(0), id);
    match read.result
    case Failure(error) => Done(Failure(error), read.blocks, read.envelopes)
    case Success(None) => Done(Failure(NoSuchBlock), read.blocks, read.envelopes)
    case Success(Some(block)) =>
      if !block.body.Bid? then Done(Failure(NotGloas), read.blocks, read.envelopes)
      else if world(0).view.slotsPerEpoch.None? then Done(Failure(SpecUnavailable), read.blocks, read.envelopes)
      else Search(Lookups(world, block.slot), block.body, 1, Lookahead(world(0).view), read.blocks, read.envelopes)
  }

  // ----- Reading an envelope -----

  function Later(world: nat -> World): nat -> World {
    (i: nat) => world(i + 1)
  }

  predicate EnvelopeArchived(view: View, id: Id) {
    id.BySlot? && view.archiveHasEnvelopes(id.slot) && Archived(view, id) && RangeFor(view, id)[id.slot].envelopeKnown
  }

  /** The archived range an envelope lookup fetches: none where no envelope sidecar covers the slot. */
  function EnvelopeRange(view: View, id: Id): ArchivedRange {
    if id.BySlot? && view.archiveHasEnvelopes(id.slot) then RangeFor(view, id) else map[]
  }

  type EnvelopeRead = Result<Option<Envelope>, ReadError>

  function ReadEnvelope(world: nat -> World, id: Id): Done<EnvelopeRead> {
    var w := world(0);
    if w.envelopes.Has(id) then Done(Success(w.envelopes.Get(id)), w.blocks, w.envelopes)
    else
      var range := EnvelopeRange(w.view, id);
      var blocks, envelopes := FillBlocks(w.blocks, range), FillEnvelopes(w.envelopes, range);
      if EnvelopeArchived(w.view, id) then Done(Success(range[id.slot].envelope), blocks, envelopes)
      else
        match w.view.envelope(id)
        case RequestFailed => Done(Failure(EnvelopeRequestFailed), blocks, envelopes)
        case NoData => Done(Success(None), blocks, envelopes.Set(id, None))
        case Data(envelope) => Done(Success(Some(envelope)), blocks, envelopes.Set(id, Some(envelope)))
        case NotFound =>
          var later := Withheld(Later(world), id);
          match later.result
          case Failure(error) => Done(Failure(RevealUndetermined(error)), later.blocks, later.envelopes)
          case Success(withheld) =>
            if withheld then Done(Success(None), later.blocks, later.envelopes.Set(id, None))
            else Done(Failure(EnvelopeNotFound), later.blocks, later.envelopes)
  }

  lemma SameMap<K, V>(a: map<K, V>, b: map<K, V>)
    requires forall k :: k in a <==> k in b
    requires forall k :: k in a ==> a[k] == b[k]
    ensures a == b
  {
  }

  lemma FillNothing(blocks: BlockCache, envelopes: EnvelopeCache)
    ensures FillBlocks(blocks, map[]) == blocks && FillEnvelopes(envelopes, map[]) == envelopes
  {
    assert FillBlocks(blocks, map[]).bySlot == blocks.bySlot;
    assert FillEnvelopes(envelopes, map[]).bySlot == envelopes.bySlot;
  }

  class CachedNode {
    var blocks: BlockCache
    var envelopes: EnvelopeCache

    /** What other callers leave in the caches by the time of a lookup. */
    method Interleave(w: World)
      modifies this
      ensures blocks == w.blocks && envelopes == w.envelopes
    {
      blocks, envelopes := w.blocks, w.envelopes;
    }

    static method CheckParent(view: View, slot: Slot, next: Block) returns (r: Result<(), ReadError>)
      ensures r == ParentCheck(view, slot, next)
    {
      var header := view.header(next.parentRoot);
      if header.Failed? {
        return Failure(HeaderRequestFailed);
      }
      if header.Absent? {
        return Failure(HistoryTooShort);
      }
      if header.value >= slot {
        return Failure(ParentNotOlder);
      }
      return Success(());
    }

    method ConfirmMissedSlot(slot: Slot, views: nat -> View) returns (r: Result<(), ReadError>)
      modifies this`blocks
      ensures r == ConfirmMissed(views, slot)
      ensures blocks == BlocksAfterConfirm(old(blocks), views, slot)
    {
      hide Cache.Set, ParentCheck, FirstAnswered;
      if views(0).slotsPerEpoch.None? {
        return Failure(SpecUnavailable);
      }
      var lookahead := 2 * views(0).slotsPerEpoch.value;
      var i := 1;
      while i <= lookahead
        invariant blocks == old(blocks)
        invariant 1 <= i <= lookahead + 1
        invariant FirstAnswered(views, slot, 1, lookahead) == FirstAnswered(views, slot, i, lookahead)
      {
        FirstAnsweredStep(views, slot, i, lookahead);
        var answer := views(i).block(BySlot(slot + i));
        if answer.Failed? {
          return Failure(BlockRequestFailed);
        }
        if answer.Found? {
          blocks := blocks.Set(BySlot(slot + i), Some(answer.value));
          r := CheckParent(views(i + 1), slot, answer.value);
          return;
        }
        i := i + 1;
      }
      FirstAnsweredStep(views, slot, i, lookahead);
      return Failure(NoBlockAfter);
    }

    /** Caches a whole archived range, in any order. */
    method CacheRange(range: ArchivedRange)
      modifies this
      ensures blocks.byRoot == old(blocks).byRoot && envelopes.byRoot == old(envelopes).byRoot
      ensures forall s :: s in blocks.bySlot <==> s in old(blocks).bySlot || s in range
      ensures forall s :: s in blocks.bySlot ==>
                blocks.bySlot[s] == if s in range then range[s].block else old(blocks).bySlot[s]
      ensures forall s :: s in envelopes.bySlot <==> s in old(envelopes).bySlot || (s in range && range[s].envelopeKnown)
      ensures forall s :: s in envelopes.bySlot ==>
                envelopes.bySlot[s] == if s in range && range[s].envelopeKnown then range[s].envelope
                                       else old(envelopes).bySlot[s]
    {
      var left := range.Keys;
      while left != {}
        invariant left <= range.Keys
        invariant blocks.byRoot == old(blocks).byRoot && envelopes.byRoot == old(envelopes).byRoot
        invariant forall s :: s in blocks.bySlot <==> s in old(blocks).bySlot || (s in range && s !in left)
        invariant forall s :: s in blocks.bySlot ==>
                    blocks.bySlot[s] == if s in range && s !in left then range[s].block else old(blocks).bySlot[s]
        invariant forall s :: s in envelopes.bySlot <==>
                    s in old(envelopes).bySlot || (s in range && s !in left && range[s].envelopeKnown)
        invariant forall s :: s in envelopes.bySlot ==>
                    envelopes.bySlot[s] == if s in range && s !in left && range[s].envelopeKnown then range[s].envelope
                                           else old(envelopes).bySlot[s]
        decreases left
      {
        var s :| s in left;
        blocks := blocks.Set(BySlot(s), range[s].block);
        if range[s].envelopeKnown {
          envelopes := envelopes.Set(BySlot(s), range[s].envelope);
        }
        left := left - {s};
      }
    }

    /** Caches the range even when it lacks the slot asked for. */
    method ArchiveSlot(id: Id, view: View) returns (content: Option<ArchivedSlot>)
      modifies this
      ensures blocks == FillBlocks(old(blocks), RangeFor(view, id))
      ensures envelopes == FillEnvelopes(old(envelopes), RangeFor(view, id))
      ensures content == if Archived(view, id) then Some(RangeFor(view, id)[id.slot]) else None
    {
      if id.ByRoot? {
        return None;
      }
      var answer := view.archive(id.slot);
      if !answer.Found? {
        return None;
      }
      var range := answer.value;
      CacheRange(range);
      SameMap(blocks.bySlot, FillBlocks(old(blocks), range).bySlot);
      SameMap(envelopes.bySlot, FillEnvelopes(old(envelopes), range).bySlot);
      return if id.slot in range then Some(range[id.slot]) else None;
    }

    method GetBeaconBlock(id: Id, view: View, later: nat -> View) returns (r: BlockRead)
      modifies this
      ensures Done(r, blocks, envelopes) == ReadBlock(World(view, later, old(blocks), old(envelopes)), id)
    {
      if blocks.Has(id) {
        return Success(blocks.Get(id));
      }
      var content := ArchiveSlot(id, view);
      if content.Some? {
        return Success(content.value.block);
      }
      var answer := view.block(id);
      if answer.Failed? {
        return Failure(BlockRequestFailed);
      }
      if answer.Absent? && id.BySlot? {
        var confirmed := ConfirmMissedSlot(id.slot, later);
        if confirmed.Failure? {
          return Failure(confirmed.error);
        }
      }
      var block := if answer.Found? then Some(answer.value) else None;
      blocks := blocks.Set(id, block);
      return Success(block);
    }

    method PayloadWithheld(id: Id, world: nat -> World) returns (r: Decision)
      modifies this
      ensures Done(r, blocks, envelopes) == Withheld(world, id)
    {
      Interleave(world(0));
      var read := GetBeaconBlock(id, world(0).view, world(0).later);
      if read.Failure? {
        return Failure(read.error);
      }
      if read.value.None? {
        return Failure(NoSuchBlock);
      }
      var block := read.value.value;
      if !block.body.Bid? {
        return Failure(NotGloas);
      }
      if world(0).view.slotsPerEpoch.None? {
        return Failure(SpecUnavailable);
      }
      r := FirstBlockAfter(block, 2 * world(0).view.slotsPerEpoch.value, world);
    }

    /** One lookup of the search, after whatever other callers did since the one before. */
    method LookUp(world: nat -> World, slot: Slot, i: nat) returns (r: BlockRead)
      modifies this
      ensures Done(r, blocks, envelopes) == Lookups(world, slot)(i)
    {
      Interleave(world(i));
      r := GetBeaconBlock(BySlot(slot + i), world(i).view, world(i).later);
    }

    /** The search of payloadWithheld for the next canonical block. */
    method FirstBlockAfter(block: Block, lookahead: nat, world: nat -> World) returns (r: Decision)
      requires block.body.Bid?
      modifies this
      ensures Done(r, blocks, envelopes) ==
                Search(Lookups(world, block.slot), block.body, 1, lookahead, old(blocks), old(envelopes))
    {
      ghost var lookup := Lookups(world, block.slot);
      var i := 1;
      while i <= lookahead
        invariant 1 <= i <= lookahead + 1
        invariant Search(lookup, block.body, 1, lookahead, old(blocks), old(envelopes))
               == Search(lookup, block.body, i, lookahead, blocks, envelopes)
      {
        var next := LookUp(world, block.slot, i);
        if next.Failure? {
          return Failure(next.error);
        }
        if next.value.Some? {
          if !next.value.value.body.Bid? {
            return Failure(NotGloas);
          }
          return BidPayloadWithheld(block.body, next.value.value.body);
        }
        i := i + 1;
      }
      return Failure(NoBlockAfter);
    }

    method EnvelopeFromArchive(id: Id, view: View) returns (envelope: Option<Option<Envelope>>)
      modifies this
      ensures blocks == FillBlocks(old(blocks), EnvelopeRange(view, id))
      ensures envelopes == FillEnvelopes(old(envelopes), EnvelopeRange(view, id))
      ensures envelope == if EnvelopeArchived(view, id) then Some(EnvelopeRange(view, id)[id.slot].envelope) else None
    {
      if id.ByRoot? || !view.archiveHasEnvelopes(id.slot) {
        FillNothing(blocks, envelopes);
        return None;
      }
      var content := ArchiveSlot(id, view);
      if content.None? || !content.value.envelopeKnown {
        return None;
      }
      return Some(content.value.envelope);
    }

    method GetExecutionPayloadEnvelope(id: Id, world: nat -> World) returns (r: EnvelopeRead)
      modifies this
      ensures Done(r, blocks, envelopes) == ReadEnvelope(world, id)
    {
      Interleave(world(0));
      var view := world(0).view;
      if envelopes.Has(id) {
        return Success(envelopes.Get(id));
      }
      var archived := EnvelopeFromArchive(id, view);
      if archived.Some? {
        return Success(archived.value);
      }
      var answer := view.envelope(id);
      match answer {
        case RequestFailed =>
          return Failure(EnvelopeRequestFailed);
        case NotFound =>
          var withheld := PayloadWithheld(id, Later(world));
          if withheld.Failure? {
            return Failure(RevealUndetermined(withheld.error));
          }
          if !withheld.value {
            return Failure(EnvelopeNotFound);
          }
          envelopes := envelopes.Set(id, None);
          return Success(None);
        case NoData =>
          envelopes := envelopes.Set(id, None);
          return Success(None);
        case Data(envelope) =>
          envelopes := envelopes.Set(id, Some(envelope));
          return Success(Some(envelope));
      }
    }
  }
}
