/**
 What cached reads say about the canonical chain, when the node is truthful in the answers it has and
 the archive is verified: missed slots, cache coherence, withheld payloads and envelopes.
 */
module BeaconReads {
  import opened Wrappers
  import opened Chain
  import opened BeaconNode
  import opened BeaconAnswers

  /** The answer for a slot: the canonical block there, or none where the chain is empty. */
  ghost predicate RightAtSlot(chain: seq<Entry>, slot: Slot, block: Option<Block>) {
    if block.None? then !HasBlockAt(chain, slot)
    else block.value.slot == slot && exists i :: 0 <= i < |chain| && chain[i].block == block.value
  }

  /** The answer for a Gloas entry's envelope: its promised payload, or none if it was withheld. */
  ghost predicate RightEnvelope(e: Entry, envelope: Option<Envelope>) {
    match envelope
    case None => !e.revealed
    case Some(v) => e.Carries() && v == Envelope(e.PayloadHash(), e.number)
  }

  predicate Names(id: Id, e: Entry) {
    match id
    case BySlot(slot) => slot == e.block.slot
    case ByRoot(root) => root == e.root
  }

  /** The node never contradicts the chain; an absent answer says nothing. */
  ghost predicate TruthfulNode(view: View, chain: seq<Entry>) {
    && (forall slot {:trigger view.block(BySlot(slot))} ::
          view.block(BySlot(slot)).Found? ==> RightAtSlot(chain, slot, Some(view.block(BySlot(slot)).value)))
    && (forall i {:trigger view.block(ByRoot(chain[i].root))} :: 0 <= i < |chain| && view.block(ByRoot(chain[i].root)).Found? ==>
          view.block(ByRoot(chain[i].root)).value == chain[i].block)
    && (forall i {:trigger view.header(chain[i].root)} :: 0 <= i < |chain| && view.header(chain[i].root).Found? ==>
          view.header(chain[i].root).value == chain[i].block.slot)
    && (|chain| > 0 ==> !view.header(chain[0].block.parentRoot).Found?)
    && (forall i, id {:trigger Names(id, chain[i])} :: 0 <= i < |chain| && Names(id, chain[i]) && view.envelope(id).Data? ==>
          RightEnvelope(chain[i], Some(view.envelope(id).envelope)))
  }

  ghost predicate RightRange(chain: seq<Entry>, range: ArchivedRange) {
    && (forall s :: s in range ==> RightAtSlot(chain, s, range[s].block))
    && (forall i :: 0 <= i < |chain| && chain[i].block.slot in range && range[chain[i].block.slot].envelopeKnown ==>
          RightEnvelope(chain[i], range[chain[i].block.slot].envelope))
  }

  /** The archive's ranges are verified against the chain. */
  ghost predicate TruthfulArchive(view: View, chain: seq<Entry>) {
    forall slot :: view.archive(slot).Found? ==> RightRange(chain, view.archive(slot).value)
  }

  ghost predicate CoherentBlocks(blocks: BlockCache, chain: seq<Entry>) {
    && (forall s :: s in blocks.bySlot ==> RightAtSlot(chain, s, blocks.bySlot[s]))
    && (forall i :: 0 <= i < |chain| && chain[i].root in blocks.byRoot && blocks.byRoot[chain[i].root].Some? ==>
          blocks.byRoot[chain[i].root].value == chain[i].block)
  }

  ghost predicate CoherentEnvelopes(envelopes: EnvelopeCache, chain: seq<Entry>) {
    forall i, id {:trigger Names(id, chain[i])} :: 0 <= i < |chain| && Names(id, chain[i]) && envelopes.Has(id) ==>
      RightEnvelope(chain[i], envelopes.Get(id))
  }

  /** The node is truthful at every request of a confirmation. */
  ghost predicate TruthfulNodes(views: nat -> View, chain: seq<Entry>) {
    forall n: nat {:trigger views(n)} :: TruthfulNode(views(n), chain)
  }

  ghost predicate TruthfulOutside(w: World, chain: seq<Entry>) {
    TruthfulNode(w.view, chain) && TruthfulNodes(w.later, chain) && TruthfulArchive(w.view, chain)
  }

  ghost predicate GoodWorld(w: World, chain: seq<Entry>) {
    TruthfulOutside(w, chain) && CoherentBlocks(w.blocks, chain) && CoherentEnvelopes(w.envelopes, chain)
  }

  // ----- Missed slots -----

  /** The canonical block a confirmation rests on, and its predecessor older than the slot. */
  lemma ConfirmingBlock(chain: seq<Entry>, views: nat -> View, slot: Slot) returns (k: nat, n: nat)
    requires Linked(chain) && ConfirmMissed(views, slot).Success?
    requires var n := FirstAnswered(views, slot, 1, Lookahead(views(0))).value;
             TruthfulNode(views(n), chain) && TruthfulNode(views(n + 1), chain)
    ensures Some(n) == FirstAnswered(views, slot, 1, Lookahead(views(0))) && views(n).block(BySlot(slot + n)).Found?
    ensures 0 < k < |chain| && chain[k].block.slot == slot + n
    ensures views(n + 1).header(chain[k - 1].root).Found? && chain[k - 1].block.slot < slot
  {
    n := FirstAnswered(views, slot, 1, Lookahead(views(0))).value;
    var block := views(n).block(BySlot(slot + n)).value;
    assert RightAtSlot(chain, slot + n, Some(block));
    k :| 0 <= k < |chain| && chain[k].block == block && block.slot == slot + n;
    assert LinkedAt(chain, k);
    assert k > 0 && views(n + 1).header(chain[k - 1].root).value == chain[k - 1].block.slot;
  }

  /** A confirmation holds only for a slot the canonical chain has no block at, even if the node lacks
      blocks between the slot and the block it found, and whatever it learns in the meantime: only the block
      found and its parent's header have to be true. */
  lemma ConfirmedIsEmpty(chain: seq<Entry>, views: nat -> View, slot: Slot)
    requires Linked(chain) && ConfirmMissed(views, slot).Success?
    requires var n := FirstAnswered(views, slot, 1, Lookahead(views(0))).value;
             TruthfulNode(views(n), chain) && TruthfulNode(views(n + 1), chain)
    ensures !HasBlockAt(chain, slot)
  {
    hide TruthfulNode, ConfirmMissed, LinkedAt;
    var k, n := ConfirmingBlock(chain, views, slot);
    forall j | 0 <= j < |chain|
      ensures chain[j].block.slot != slot
    {
      assert j <= k - 1 || k <= j;
    }
  }

  /** Entry k follows the empty slot by n slots, within the lookahead; it is the first block the node answers
      with after the slot, and the node then knows the header of its parent. */
  ghost predicate Confirms(chain: seq<Entry>, views: nat -> View, slot: Slot, k: nat, n: nat)
    requires k < |chain| && views(0).slotsPerEpoch.Some?
  {
    && 0 < k && chain[k - 1].block.slot < slot && chain[k].block.slot == slot + n && 1 <= n <= 2 * views(0).slotsPerEpoch.value
    && (forall i: nat {:trigger views(i)} :: 1 <= i < n ==> views(i).block(BySlot(slot + i)).Absent?)
    && views(n).block(BySlot(slot + n)).Found?
    && views(n + 1).header(chain[k - 1].root).Found?
  }

  lemma ConfirmedBy(chain: seq<Entry>, views: nat -> View, slot: Slot) returns (k: nat, n: nat)
    requires Linked(chain) && TruthfulNodes(views, chain) && ConfirmMissed(views, slot).Success?
    ensures k < |chain| && views(0).slotsPerEpoch.Some? && Confirms(chain, views, slot, k, n)
  {
    hide TruthfulNode, Linked;
    k, n := ConfirmingBlock(chain, views, slot);
  }

  lemma ConfirmsSuffices(chain: seq<Entry>, views: nat -> View, slot: Slot, k: nat, n: nat)
    requires Linked(chain) && TruthfulNodes(views, chain)
    requires k < |chain| && views(0).slotsPerEpoch.Some? && Confirms(chain, views, slot, k, n)
    ensures ConfirmMissed(views, slot).Success?
  {
    assert FirstAnswered(views, slot, 1, Lookahead(views(0))) == Some(n);
    assert RightAtSlot(chain, slot + n, Some(views(n).block(BySlot(slot + n)).value));
    assert views(n).block(BySlot(slot + n)).value == chain[k].block;
    assert LinkedAt(chain, k);
  }

  /** Exactly when a slot is confirmed. */
  lemma ConfirmedIff(chain: seq<Entry>, views: nat -> View, slot: Slot)
    requires Linked(chain) && TruthfulNodes(views, chain)
    ensures ConfirmMissed(views, slot).Success? <==>
              views(0).slotsPerEpoch.Some? && exists k: nat, n: nat :: k < |chain| && Confirms(chain, views, slot, k, n)
  {
    if ConfirmMissed(views, slot).Success? {
      var k, n := ConfirmedBy(chain, views, slot);
    }
    if views(0).slotsPerEpoch.Some? {
      forall k: nat, n: nat | k < |chain| && Confirms(chain, views, slot, k, n)
        ensures ConfirmMissed(views, slot).Success?
      {
        ConfirmsSuffices(chain, views, slot, k, n);
      }
    }
  }

  // ----- Coherence -----

  lemma FilledBlocksAreCoherent(chain: seq<Entry>, w: World, id: Id)
    requires TruthfulArchive(w.view, chain) && CoherentBlocks(w.blocks, chain)
    ensures CoherentBlocks(FillBlocks(w.blocks, RangeFor(w.view, id)), chain)
  {
    assert RightRange(chain, RangeFor(w.view, id));
  }

  lemma FilledEnvelopesAreCoherent(chain: seq<Entry>, w: World, id: Id)
    requires TruthfulArchive(w.view, chain) && CoherentEnvelopes(w.envelopes, chain)
    ensures CoherentEnvelopes(FillEnvelopes(w.envelopes, RangeFor(w.view, id)), chain)
  {
    var range := RangeFor(w.view, id);
    assert RightRange(chain, range);
    var filled := FillEnvelopes(w.envelopes, range);
    forall i, key | 0 <= i < |chain| && Names(key, chain[i]) && filled.Has(key)
      ensures RightEnvelope(chain[i], filled.Get(key))
    {
      if key.ByRoot? || !(key.slot in range && range[key.slot].envelopeKnown) {
        assert w.envelopes.Has(key);
      }
    }
  }

  /** A block read gives the right answer for a slot, and the right block or nothing for a canonical root. */
  ghost predicate RightRead(chain: seq<Entry>, id: Id, block: Option<Block>) {
    if id.BySlot? then RightAtSlot(chain, id.slot, block)
    else forall i :: 0 <= i < |chain| && chain[i].root == id.root && block.Some? ==> block.value == chain[i].block
  }

  lemma SetKeepsCoherence(chain: seq<Entry>, blocks: BlockCache, id: Id, block: Option<Block>)
    requires CoherentBlocks(blocks, chain) && RightRead(chain, id, block)
    ensures CoherentBlocks(blocks.Set(id, block), chain)
  {
  }

  lemma FoundIsRight(chain: seq<Entry>, view: View, id: Id)
    requires TruthfulNode(view, chain) && view.block(id).Found?
    ensures RightRead(chain, id, Some(view.block(id).value))
  {
    assert id.BySlot? ==> view.block(id) == view.block(BySlot(id.slot));
  }

  lemma ConfirmationIsRight(chain: seq<Entry>, w: World, slot: Slot)
    requires Linked(chain) && TruthfulNodes(w.later, chain) && ConfirmMissed(w.later, slot).Success?
    ensures RightRead(chain, BySlot(slot), None)
  {
    hide FirstAnswered, TruthfulNode, Linked;
    ConfirmedIsEmpty(chain, w.later, slot);
  }

  lemma ArchivedIsRight(chain: seq<Entry>, view: View, id: Id)
    requires TruthfulArchive(view, chain) && Archived(view, id)
    ensures RightRead(chain, id, RangeFor(view, id)[id.slot].block)
  {
    assert RightRange(chain, RangeFor(view, id));
  }

  lemma UncachedReadIsRight(chain: seq<Entry>, w: World, id: Id)
    requires Linked(chain) && TruthfulOutside(w, chain) && CoherentBlocks(w.blocks, chain)
    ensures var d := ReadUncached(w, id);
            CoherentBlocks(d.blocks, chain) && (d.result.Success? ==> RightRead(chain, id, d.result.value))
  {
    hide CoherentBlocks, TruthfulNode, TruthfulArchive, Linked, ConfirmMissed, BlocksAfterConfirm, RightAtSlot, RangeFor;
    if Archived(w.view, id) {
      ArchivedIsRight(chain, w.view, id);
    } else {
      var answer := w.view.block(id);
      if answer.Found? {
        FoundIsRight(chain, w.view, id);
        SetKeepsCoherence(chain, w.blocks, id, Some(answer.value));
      } else if answer.Absent? && id.ByRoot? {
        SetKeepsCoherence(chain, w.blocks, id, None);
      } else if answer.Absent? {
        ConfirmKeepsCoherence(chain, w, id.slot);
        if ConfirmMissed(w.later, id.slot).Success? {
          ConfirmationIsRight(chain, w, id.slot);
          SetKeepsCoherence(chain, BlocksAfterConfirm(w.blocks, w.later, id.slot), id, None);
        }
      }
    }
  }

  lemma ConfirmKeepsCoherence(chain: seq<Entry>, w: World, slot: Slot)
    requires TruthfulNodes(w.later, chain) && CoherentBlocks(w.blocks, chain)
    ensures CoherentBlocks(BlocksAfterConfirm(w.blocks, w.later, slot), chain)
  {
    if w.later(0).slotsPerEpoch.Some? {
      var n := FirstAnswered(w.later, slot, 1, Lookahead(w.later(0)));
      if n.Some? && w.later(n.value).block(BySlot(slot + n.value)).Found? {
        SetKeepsCoherence(chain, w.blocks, BySlot(slot + n.value), Some(w.later(n.value).block(BySlot(slot + n.value)).value));
      }
    }
  }

  /** Every block read keeps the block cache coherent and, when it succeeds, is right about the chain. */
  lemma ReadBlockIsRight(chain: seq<Entry>, w: World, id: Id)
    requires Linked(chain) && TruthfulOutside(w, chain) && CoherentBlocks(w.blocks, chain)
    ensures var d := ReadBlock(w, id);
            CoherentBlocks(d.blocks, chain) && (d.result.Success? ==> RightRead(chain, id, d.result.value))
  {
    if !w.blocks.Has(id) {
      hide RightRead, CoherentBlocks, ReadUncached;
      FilledBlocksAreCoherent(chain, w, id);
      var range := RangeFor(w.view, id);
      UncachedReadIsRight(chain, w.(blocks := FillBlocks(w.blocks, range), envelopes := FillEnvelopes(w.envelopes, range)), id);
    }
  }

  /** A block read only ever adds archived envelopes to the other cache. */
  lemma ReadBlockKeepsEnvelopes(chain: seq<Entry>, w: World, id: Id)
    requires TruthfulOutside(w, chain) && CoherentEnvelopes(w.envelopes, chain)
    ensures CoherentEnvelopes(ReadBlock(w, id).envelopes, chain)
  {
    hide CoherentEnvelopes;
    FilledEnvelopesAreCoherent(chain, w, id);
  }

  lemma ReadKeepsCoherence(chain: seq<Entry>, w: World, id: Id)
    requires Linked(chain) && GoodWorld(w, chain)
    ensures CoherentBlocks(ReadBlock(w, id).blocks, chain) && CoherentEnvelopes(ReadBlock(w, id).envelopes, chain)
  {
    ReadBlockIsRight(chain, w, id);
    ReadBlockKeepsEnvelopes(chain, w, id);
  }

  /** A read answers its identifier from the cache from then on exactly if it succeeded; an unconfirmed
      "no block" is asked again. */
  lemma CachedIffSucceeded(w: World, id: Id)
    requires !w.blocks.Has(id)
    ensures ReadBlock(w, id).blocks.Has(id) <==> ReadBlock(w, id).result.Success?
    ensures ReadBlock(w, id).result.Success? ==> ReadBlock(w, id).blocks.Get(id) == ReadBlock(w, id).result.value
  {
    if id.BySlot? && w.later(0).slotsPerEpoch.Some? {
      var n := FirstAnswered(w.later, id.slot, 1, Lookahead(w.later(0)));
      assert n.Some? ==> id.slot + n.value != id.slot;
    }
  }

  /** What the caches hold between two operations. */
  datatype Caches = Caches(blocks: BlockCache, envelopes: EnvelopeCache)

  /** Entries are dropped, never altered. */
  ghost predicate Evicts(before: Caches, after: Caches) {
    && (forall id :: after.blocks.Has(id) ==> before.blocks.Has(id) && after.blocks.Get(id) == before.blocks.Get(id))
    && (forall id :: after.envelopes.Has(id) ==> before.envelopes.Has(id) && after.envelopes.Get(id) == before.envelopes.Get(id))
  }

  lemma EvictionKeepsBlocks(chain: seq<Entry>, before: Caches, after: Caches)
    requires CoherentBlocks(before.blocks, chain) && Evicts(before, after)
    ensures CoherentBlocks(after.blocks, chain)
  {
    forall s | s in after.blocks.bySlot
      ensures RightAtSlot(chain, s, after.blocks.bySlot[s])
    {
      assert after.blocks.Has(BySlot(s)) && before.blocks.Has(BySlot(s)) && after.blocks.Get(BySlot(s)) == before.blocks.Get(BySlot(s));
    }
    forall i | 0 <= i < |chain| && chain[i].root in after.blocks.byRoot && after.blocks.byRoot[chain[i].root].Some?
      ensures after.blocks.byRoot[chain[i].root].value == chain[i].block
    {
      var id := ByRoot(chain[i].root);
      assert after.blocks.Has(id) && before.blocks.Has(id) && after.blocks.Get(id) == before.blocks.Get(id);
    }
  }

  lemma EvictionKeepsCoherence(chain: seq<Entry>, before: Caches, after: Caches)
    requires CoherentBlocks(before.blocks, chain) && CoherentEnvelopes(before.envelopes, chain) && Evicts(before, after)
    ensures CoherentBlocks(after.blocks, chain) && CoherentEnvelopes(after.envelopes, chain)
  {
    EvictionKeepsBlocks(chain, before, after);
    forall i, id | 0 <= i < |chain| && Names(id, chain[i]) && after.envelopes.Has(id)
      ensures RightEnvelope(chain[i], after.envelopes.Get(id))
    {
      assert before.envelopes.Has(id);
    }
  }

  // ----- Withheld payloads -----

  /** Any two bids are answered exactly if the later one builds on one of the earlier one's hashes, and the
      answer tells which; anything else is an error, not a guess. */
  lemma AnswerNamesParent(bid: Body, nextBid: Body)
    requires bid.Bid? && nextBid.Bid?
    ensures var r := BidPayloadWithheld(bid, nextBid);
            && (r.Success? <==> nextBid.parentHash == bid.blockHash || nextBid.parentHash == bid.parentHash)
            && (r.Success? ==> nextBid.parentHash == if r.value then bid.parentHash else bid.blockHash)
            && (r.Failure? ==> r.error == BidsInconsistent)
  {
  }

  /** Two consecutive canonical bids decide whether the earlier payload entered the execution chain. */
  lemma ConsecutiveBidsDecide(chain: seq<Entry>, base: Base, i: nat)
    requires Canonical(chain, base) && i + 1 < |chain| && chain[i].block.body.Bid?
    ensures chain[i + 1].block.body.Bid?
    ensures BidPayloadWithheld(chain[i].block.body, chain[i + 1].block.body) == Success(!chain[i].revealed)
  {
    assert BuildsOnHeadAt(chain, base, i) && BuildsOnHeadAt(chain, base, i + 1);
    assert chain[i].Carries() && chain[i + 1].Carries();
    HeadIsNearest(chain, base, i);
  }

  /** Every lookup of the search meets a coherent cache and a truthful outside. */
  ghost predicate GoodWorlds(world: nat -> World, chain: seq<Entry>) {
    forall i: nat {:trigger GoodWorld(world(i), chain)} :: GoodWorld(world(i), chain)
  }

  /** A lookup between entry k and its successor fails, finds nothing, or finds the successor, which
      then decides rightly; the caches stay coherent. */
  ghost predicate LookupIsRight(chain: seq<Entry>, read: Done<BlockRead>, k: nat, slot: Slot)
    requires k < |chain| && chain[k].block.body.Bid?
  {
    Decide(chain[k].block.body, read.result) ==
      if read.result.Failure? then Some(Failure(read.result.error))
      else if k + 1 < |chain| && slot == chain[k + 1].block.slot then Some(Success(!chain[k].revealed))
      else None
  }

  lemma LookupDecides(chain: seq<Entry>, base: Base, w: World, k: nat, slot: Slot)
    requires Canonical(chain, base) && GoodWorld(w, chain)
    requires k < |chain| && chain[k].block.body.Bid?
    requires chain[k].block.slot < slot && (k + 1 < |chain| ==> slot <= chain[k + 1].block.slot)
    ensures LookupIsRight(chain, ReadBlock(w, BySlot(slot)), k, slot)
  {
    ReadBlockIsRight(chain, w, BySlot(slot));
    var read := ReadBlock(w, BySlot(slot)).result;
    if read.Success? && read.value.Some? {
      var j :| 0 <= j < |chain| && chain[j].block == read.value.value;
      assert j == k + 1;
      ConsecutiveBidsDecide(chain, base, k);
    }
  }

  /** The slot at offset i from entry k is not past the next canonical block. */
  predicate UpToNext(chain: seq<Entry>, k: nat, i: nat)
    requires k < |chain|
  {
    k + 1 < |chain| ==> chain[k].block.slot + i <= chain[k + 1].block.slot
  }

  lemma OffsetIsUpToNext(chain: seq<Entry>, k: nat, i: nat)
    requires k < |chain| && UpToNext(chain, k, i)
    ensures k + 1 < |chain| ==> chain[k].block.slot + i <= chain[k + 1].block.slot
  {
  }

  /** The lookups from offset i on succeed up to the next canonical block. */
  ghost predicate LookupsReach(chain: seq<Entry>, lookup: nat -> Done<BlockRead>, k: nat, i: nat)
    requires k < |chain|
  {
    forall j: nat {:trigger lookup(j)} :: i <= j && UpToNext(chain, k, j) ==> lookup(j).result.Success?
  }

  /** The search from offset i on, from its single lookups. */
  lemma {:induction false} SearchByLookups(chain: seq<Entry>, lookup: nat -> Done<BlockRead>, k: nat, i: nat, lookahead: nat,
                                           blocks: BlockCache, envelopes: EnvelopeCache)
    requires k < |chain| && chain[k].block.body.Bid? && UpToNext(chain, k, i)
    requires forall j: nat {:trigger lookup(j)} :: i <= j && UpToNext(chain, k, j) ==>
               LookupIsRight(chain, lookup(j), k, chain[k].block.slot + j)
    ensures var r := Search(lookup, chain[k].block.body, i, lookahead, blocks, envelopes).result;
            && (r.Success? ==> r.value == !chain[k].revealed)
            && (r.Success? <==> k + 1 < |chain| && chain[k + 1].block.slot <= chain[k].block.slot + lookahead
                                && LookupsReach(chain, lookup, k, i))
    decreases lookahead + 1 - i
  {
    if i <= lookahead {
      var read := lookup(i);
      if Decide(chain[k].block.body, read.result).None? {
        SearchByLookups(chain, lookup, k, i + 1, lookahead, read.blocks, read.envelopes);
      }
    }
  }

  /** The search leaves coherent caches. */
  lemma {:induction false} SearchKeepsCoherence(chain: seq<Entry>, lookup: nat -> Done<BlockRead>, bid: Body, i: nat, lookahead: nat,
                                                blocks: BlockCache, envelopes: EnvelopeCache)
    requires bid.Bid? && CoherentBlocks(blocks, chain) && CoherentEnvelopes(envelopes, chain)
    requires forall j: nat :: CoherentBlocks(lookup(j).blocks, chain) && CoherentEnvelopes(lookup(j).envelopes, chain)
    ensures var d := Search(lookup, bid, i, lookahead, blocks, envelopes);
            CoherentBlocks(d.blocks, chain) && CoherentEnvelopes(d.envelopes, chain)
    decreases lookahead + 1 - i
  {
    if i <= lookahead && Decide(bid, lookup(i).result).None? {
      SearchKeepsCoherence(chain, lookup, bid, i + 1, lookahead, lookup(i).blocks, lookup(i).envelopes);
    }
  }

  lemma LookupIsReadBlock(world: nat -> World, slot: Slot, j: nat)
    ensures Lookups(world, slot)(j) == ReadBlock(world(j), BySlot(slot + j))
  {
  }

  lemma WorldAt(world: nat -> World, chain: seq<Entry>, j: nat)
    requires GoodWorlds(world, chain)
    ensures GoodWorld(world(j), chain)
  {
  }

  lemma LookupAtIsRight(chain: seq<Entry>, base: Base, world: nat -> World, k: nat, j: nat)
    requires Canonical(chain, base) && GoodWorlds(world, chain)
    requires k < |chain| && chain[k].block.body.Bid? && 1 <= j && UpToNext(chain, k, j)
    ensures LookupIsRight(chain, Lookups(world, chain[k].block.slot)(j), k, chain[k].block.slot + j)
  {
    hide *;
    WorldAt(world, chain, j);
    OffsetIsUpToNext(chain, k, j);
    LookupDecides(chain, base, world(j), k, chain[k].block.slot + j);
    LookupIsReadBlock(world, chain[k].block.slot, j);
  }

  lemma LookupAtKeepsCoherence(chain: seq<Entry>, world: nat -> World, slot: Slot, j: nat)
    requires Linked(chain) && GoodWorlds(world, chain)
    ensures CoherentBlocks(Lookups(world, slot)(j).blocks, chain) && CoherentEnvelopes(Lookups(world, slot)(j).envelopes, chain)
  {
    hide *;
    LookupIsReadBlock(world, slot, j);
    WorldAt(world, chain, j);
    ReadKeepsCoherence(chain, world(j), BySlot(slot + j));
  }

  lemma WithheldBySearch(chain: seq<Entry>, base: Base, world: nat -> World, id: Id, k: nat)
    requires Canonical(chain, base) && GoodWorlds(world, chain)
    requires k < |chain| && chain[k].block.body.Bid? && Names(id, chain[k])
    ensures var r := Withheld(world, id).result;
            var read := ReadBlock(world(0), id).result;
            && (r == Success(true) ==> !InExecutionChain(chain, chain[k].block.body.blockHash))
            && (r == Success(false) ==> InExecutionChain(chain, chain[k].block.body.blockHash))
            && (r.Success? <==>
                  && read.Success? && read.value.Some? && world(0).view.slotsPerEpoch.Some?
                  && k + 1 < |chain| && chain[k + 1].block.slot <= chain[k].block.slot + Lookahead(world(0).view)
                  && LookupsReach(chain, Lookups(world, chain[k].block.slot), k, 1))
  {
    RevealedIffInExecutionChain(chain, base, k);
    assert GoodWorld(world(0), chain);
    ReadBlockIsRight(chain, world(0), id);
    var read := ReadBlock(world(0), id);
    if read.result.Success? && read.result.value.Some? && world(0).view.slotsPerEpoch.Some? {
      assert read.result.value.value == chain[k].block;
      var lookup := Lookups(world, chain[k].block.slot);
      forall j: nat | 1 <= j && UpToNext(chain, k, j)
        ensures LookupIsRight(chain, lookup(j), k, chain[k].block.slot + j)
      {
        LookupAtIsRight(chain, base, world, k, j);
      }
      SearchByLookups(chain, lookup, k, 1, Lookahead(world(0).view), read.blocks, read.envelopes);
    }
  }

  /** The slots after entry k up to the next canonical block can all be read. */
  ghost predicate ReadableToNext(chain: seq<Entry>, world: nat -> World, k: nat)
    requires k < |chain|
  {
    forall j: nat {:trigger world(j)} :: 1 <= j && UpToNext(chain, k, j) ==> Readable(world(j), BySlot(chain[k].block.slot + j))
  }

  lemma ReadableIffReach(chain: seq<Entry>, world: nat -> World, k: nat)
    requires k < |chain|
    ensures ReadableToNext(chain, world, k) <==> LookupsReach(chain, Lookups(world, chain[k].block.slot), k, 1)
  {
    hide Readable, ReadBlock, UpToNext;
    var slot := chain[k].block.slot;
    forall j: nat
      ensures Readable(world(j), BySlot(slot + j)) <==> Lookups(world, slot)(j).result.Success?
    {
      ReadSucceedsIff(world(j), BySlot(slot + j));
      LookupIsReadBlock(world, slot, j);
    }
    if ReadableToNext(chain, world, k) {
      forall j: nat | 1 <= j && UpToNext(chain, k, j)
        ensures Lookups(world, slot)(j).result.Success?
      {
        assert Readable(world(j), BySlot(slot + j));
      }
    }
    if LookupsReach(chain, Lookups(world, slot), k, 1) {
      forall j: nat | 1 <= j && UpToNext(chain, k, j)
        ensures Readable(world(j), BySlot(slot + j))
      {
        assert Lookups(world, slot)(j).result.Success?;
      }
    }
  }

  lemma ReadsSomeIff(w: World, id: Id)
    ensures ReadBlock(w, id).result.Success? && ReadBlock(w, id).result.value.Some? <==> exists block :: Reads(w, id, Some(block))
  {
    hide ReadBlock, Reads;
    if ReadBlock(w, id).result.Success? && ReadBlock(w, id).result.value.Some? {
      ReadAnswersIff(w, id, ReadBlock(w, id).result.value);
    }
    if block :| Reads(w, id, Some(block)) {
      ReadAnswersIff(w, id, Some(block));
    }
  }

  /** payloadWithheld for a canonical Gloas entry: an answer is always right, and there is one exactly when
      the entry's block can be read, and so can every slot up to the next canonical block, which lies within
      two epochs. */
  lemma WithheldIsRight(chain: seq<Entry>, base: Base, world: nat -> World, id: Id, k: nat)
    requires Canonical(chain, base) && GoodWorlds(world, chain)
    requires k < |chain| && chain[k].block.body.Bid? && Names(id, chain[k])
    ensures var r := Withheld(world, id).result;
            && (r == Success(true) ==> !InExecutionChain(chain, chain[k].block.body.blockHash))
            && (r == Success(false) ==> InExecutionChain(chain, chain[k].block.body.blockHash))
            && (r.Success? <==>
                  && (exists block :: Reads(world(0), id, Some(block))) && world(0).view.slotsPerEpoch.Some?
                  && k + 1 < |chain| && chain[k + 1].block.slot <= chain[k].block.slot + 2 * world(0).view.slotsPerEpoch.value
                  && ReadableToNext(chain, world, k))
  {
    hide Withheld, Reads, ReadBlock, LookupsReach, ReadableToNext, GoodWorlds, InExecutionChain, Canonical;
    WithheldBySearch(chain, base, world, id, k);
    ReadsSomeIff(world(0), id);
    ReadableIffReach(chain, world, k);
  }

  lemma WithheldKeepsCoherence(chain: seq<Entry>, world: nat -> World, id: Id)
    requires Linked(chain) && GoodWorlds(world, chain)
    ensures var d := Withheld(world, id);
            CoherentBlocks(d.blocks, chain) && CoherentEnvelopes(d.envelopes, chain)
  {
    assert GoodWorld(world(0), chain);
    ReadKeepsCoherence(chain, world(0), id);
    var read := ReadBlock(world(0), id);
    if read.result.Success? && read.result.value.Some? {
      var block := read.result.value.value;
      if block.body.Bid? && world(0).view.slotsPerEpoch.Some? {
        var lookup := Lookups(world, block.slot);
        forall j: nat
          ensures CoherentBlocks(lookup(j).blocks, chain) && CoherentEnvelopes(lookup(j).envelopes, chain)
        {
          LookupAtKeepsCoherence(chain, world, block.slot, j);
        }
        SearchKeepsCoherence(chain, lookup, block.body, 1, Lookahead(world(0).view), read.blocks, read.envelopes);
      }
    }
  }

  // ----- Envelopes -----

  /** The provider is asked, and reports success without an envelope. */
  ghost predicate AnswersWithoutData(w: World, id: Id) {
    !w.envelopes.Has(id) && !EnvelopeArchived(w.view, id) && w.view.envelope(id).NoData?
  }

  /** There is no withheld decision for a block from before Gloas. */
  lemma OnlyGloasIsDecided(chain: seq<Entry>, world: nat -> World, id: Id, k: nat)
    requires Linked(chain) && GoodWorlds(world, chain)
    requires k < |chain| && !chain[k].block.body.Bid? && Names(id, chain[k])
    ensures Withheld(world, id).result.Failure?
  {
    assert GoodWorld(world(0), chain);
    ReadBlockIsRight(chain, world(0), id);
    var read := ReadBlock(world(0), id).result;
    if read.Success? && read.value.Some? {
      assert read.value.value == chain[k].block;
    }
  }

  lemma CachedAnswerIsRight(chain: seq<Entry>, envelopes: EnvelopeCache, id: Id, k: nat)
    requires CoherentEnvelopes(envelopes, chain) && k < |chain| && Names(id, chain[k]) && envelopes.Has(id)
    ensures RightEnvelope(chain[k], envelopes.Get(id))
  {
  }

  lemma NotFoundAnswerIsRight(chain: seq<Entry>, base: Base, world: nat -> World, id: Id, k: nat)
    requires Canonical(chain, base) && GoodWorlds(world, chain) && k < |chain| && Names(id, chain[k])
    ensures Withheld(world, id).result == Success(true) ==> RightEnvelope(chain[k], None)
  {
    hide Withheld, GoodWorlds;
    if chain[k].block.body.Bid? {
      WithheldIsRight(chain, base, world, id, k);
      RevealedIffInExecutionChain(chain, base, k);
    } else {
      OnlyGloasIsDecided(chain, world, id, k);
    }
  }

  /** The answer for a canonical block is its payload, or none.  "None" is wrong exactly when the payload is
      in the execution chain and the provider reported success without data. */
  lemma EnvelopeAnswerIsRight(chain: seq<Entry>, base: Base, world: nat -> World, id: Id, k: nat)
    requires Canonical(chain, base) && GoodWorlds(world, chain) && k < |chain| && Names(id, chain[k])
    ensures var r := ReadEnvelope(world, id).result;
            r.Success? ==>
              (!RightEnvelope(chain[k], r.value) <==>
                 AnswersWithoutData(world(0), id) && chain[k].Carries() && InExecutionChain(chain, chain[k].PayloadHash()))
  {
    hide Withheld, GoodWorlds;
    var w := world(0);
    WorldAt(world, chain, 0);
    if chain[k].Carries() {
      RevealedIffInExecutionChain(chain, base, k);
    }
    if w.envelopes.Has(id) {
      CachedAnswerIsRight(chain, w.envelopes, id, k);
    } else if EnvelopeArchived(w.view, id) {
      assert RightRange(chain, RangeFor(w.view, id));
    } else if w.view.envelope(id).NotFound? {
      GoodLater(world, chain);
      NotFoundAnswerIsRight(chain, base, Later(world), id, k);
    }
  }

  /** Nothing is known outside, and every envelope request succeeds without data. */
  function EmptyHanded(): View {
    View((id: Id) => Fetch.Absent, (root: Root) => Fetch.Absent, (id: Id) => NoData, Option.None,
         (slot: Slot) => Fetch.Absent, (slot: Slot) => false)
  }

  const UNCACHED: World := World(EmptyHanded(), (n: nat) => EmptyHanded(), Cache(map[], map[]), Cache(map[], map[]))

  lemma OnePayload() returns (chain: seq<Entry>, base: Base)
    ensures Canonical(chain, base) && |chain| == 1 && chain[0].block.body.Bid?
    ensures chain[0].revealed && InExecutionChain(chain, chain[0].block.body.blockHash)
  {
    var e := Entry(1, Block(1, 0, Bid(10, 11)), 1, true);
    chain, base := [e], Base(10, 0);
    assert BuildsOnHeadAt(chain, base, 0) && LinkedAt(chain, 0);
    assert chain[0].revealed && chain[0].Carries() && chain[0].PayloadHash() == 11;
  }

  /** A provider that reports success without data makes a revealed payload look withheld, and the
      "none" is cached. */
  lemma EmptyAnswerHidesPayload() returns (chain: seq<Entry>, base: Base, world: nat -> World, id: Id)
    ensures Canonical(chain, base) && GoodWorlds(world, chain) && |chain| == 1 && Names(id, chain[0])
    ensures chain[0].block.body.Bid? && InExecutionChain(chain, chain[0].block.body.blockHash)
    ensures ReadEnvelope(world, id).result == Success(None) && ReadEnvelope(world, id).envelopes.Has(id)
  {
    chain, base := OnePayload();
    world, id := (i: nat) => UNCACHED, ByRoot(chain[0].root);
    forall i: nat
      ensures GoodWorld(world(i), chain)
    {
      assert TruthfulNode(EmptyHanded(), chain);
    }
    EnvelopeAnswerIsRight(chain, base, world, id, 0);
  }

  lemma GoodLater(world: nat -> World, chain: seq<Entry>)
    requires GoodWorlds(world, chain)
    ensures GoodWorlds(Later(world), chain)
  {
    forall i: nat
      ensures GoodWorld(Later(world)(i), chain)
    {
      assert GoodWorld(world(i + 1), chain);
    }
  }

  /** A 404 is answered with "none" exactly when the search shows the payload withheld, and only then is
      an entry for the identifier cached; otherwise it is an error and the search's caches stay as they are. */
  lemma NotFoundIffWithheld(chain: seq<Entry>, base: Base, world: nat -> World, id: Id, k: nat)
    requires Canonical(chain, base) && GoodWorlds(world, chain)
    requires k < |chain| && chain[k].block.body.Bid? && Names(id, chain[k])
    requires !world(0).envelopes.Has(id) && !EnvelopeArchived(world(0).view, id) && world(0).view.envelope(id).NotFound?
    ensures var d := ReadEnvelope(world, id);
            var search := Withheld(Later(world), id);
            && (d.result.Success? <==> search.result == Success(true))
            && (d.result.Success? ==> d.result.value.None? && !chain[k].revealed && d.envelopes == search.envelopes.Set(id, None))
            && (d.result.Failure? ==> d.envelopes == search.envelopes)
            && (search.result == Success(false) ==> chain[k].revealed && d.result == Failure(EnvelopeNotFound))
  {
    GoodLater(world, chain);
    WithheldIsRight(chain, base, Later(world), id, k);
    RevealedIffInExecutionChain(chain, base, k);
  }

  lemma SetEnvelopeKeepsCoherence(chain: seq<Entry>, envelopes: EnvelopeCache, id: Id, envelope: Option<Envelope>)
    requires CoherentEnvelopes(envelopes, chain)
    requires forall k :: 0 <= k < |chain| && Names(id, chain[k]) ==> RightEnvelope(chain[k], envelope)
    ensures CoherentEnvelopes(envelopes.Set(id, envelope), chain)
  {
    var set' := envelopes.Set(id, envelope);
    forall k, key | 0 <= k < |chain| && Names(key, chain[k]) && set'.Has(key)
      ensures RightEnvelope(chain[k], set'.Get(key))
    {
      if key != id {
        assert envelopes.Has(key);
      }
    }
  }

  /** The provider hides a revealed payload: it reports success without data for it. */
  ghost predicate Hides(chain: seq<Entry>, w: World, id: Id) {
    AnswersWithoutData(w, id) && exists k :: 0 <= k < |chain| && Names(id, chain[k]) && chain[k].revealed
  }

  /** A successful answer is right for every canonical block it is asked for, unless the provider hid one. */
  lemma UnhiddenAnswerIsRight(chain: seq<Entry>, base: Base, world: nat -> World, id: Id)
    requires Canonical(chain, base) && GoodWorlds(world, chain) && !Hides(chain, world(0), id)
    requires ReadEnvelope(world, id).result.Success?
    ensures forall k :: 0 <= k < |chain| && Names(id, chain[k]) ==> RightEnvelope(chain[k], ReadEnvelope(world, id).result.value)
  {
    hide ReadEnvelope, GoodWorlds, AnswersWithoutData;
    forall k | 0 <= k < |chain| && Names(id, chain[k])
      ensures RightEnvelope(chain[k], ReadEnvelope(world, id).result.value)
    {
      EnvelopeAnswerIsRight(chain, base, world, id, k);
      if chain[k].Carries() {
        RevealedIffInExecutionChain(chain, base, k);
      }
    }
  }

  lemma HiddenIsStored(chain: seq<Entry>, world: nat -> World, id: Id)
    requires Hides(chain, world(0), id)
    ensures ReadEnvelope(world, id).result == Success(None)
    ensures forall envelopes: EnvelopeCache :: !CoherentEnvelopes(envelopes.Set(id, None), chain)
  {
    var k :| 0 <= k < |chain| && Names(id, chain[k]) && chain[k].revealed;
    forall envelopes: EnvelopeCache
      ensures !CoherentEnvelopes(envelopes.Set(id, None), chain)
    {
      assert envelopes.Set(id, None).Has(id) && !RightEnvelope(chain[k], envelopes.Set(id, None).Get(id));
    }
  }

  /** An envelope read keeps the block cache coherent, and the envelope cache exactly if the provider does
      not hide a revealed payload. */
  lemma ReadEnvelopeKeepsCoherence(chain: seq<Entry>, base: Base, world: nat -> World, id: Id)
    requires Canonical(chain, base) && GoodWorlds(world, chain)
    ensures var d := ReadEnvelope(world, id);
            CoherentBlocks(d.blocks, chain) && (CoherentEnvelopes(d.envelopes, chain) <==> !Hides(chain, world(0), id))
  {
    WorldAt(world, chain, 0);
    if Hides(chain, world(0), id) {
      HiddenIsStored(chain, world, id);
      hide GoodWorlds, CoherentEnvelopes;
      EnvelopeFillIsCoherent(chain, world(0), id);
    } else if !world(0).envelopes.Has(id) {
      hide GoodWorlds, Hides, CoherentEnvelopes;
      if ReadEnvelope(world, id).result.Success? {
        UnhiddenAnswerIsRight(chain, base, world, id);
      }
      UncachedEnvelopeKeepsCoherence(chain, world, id);
    }
  }

  lemma UncachedEnvelopeKeepsCoherence(chain: seq<Entry>, world: nat -> World, id: Id)
    requires Linked(chain) && GoodWorlds(world, chain) && !world(0).envelopes.Has(id)
    requires var r := ReadEnvelope(world, id).result;
             r.Success? ==> forall k :: 0 <= k < |chain| && Names(id, chain[k]) ==> RightEnvelope(chain[k], r.value)
    ensures var d := ReadEnvelope(world, id);
            CoherentBlocks(d.blocks, chain) && CoherentEnvelopes(d.envelopes, chain)
  {
    var w := world(0);
    assert GoodWorld(w, chain);
    EnvelopeFillIsCoherent(chain, w, id);
    var d := ReadEnvelope(world, id);
    if !EnvelopeArchived(w.view, id) {
      if w.view.envelope(id).NotFound? {
        GoodLater(world, chain);
        WithheldKeepsCoherence(chain, Later(world), id);
        SetIfSuccess(chain, Withheld(Later(world), id).envelopes, d, id);
      } else {
        SetIfSuccess(chain, FillEnvelopes(w.envelopes, EnvelopeRange(w.view, id)), d, id);
      }
    }
  }

  lemma EnvelopeFillIsCoherent(chain: seq<Entry>, w: World, id: Id)
    requires GoodWorld(w, chain)
    ensures CoherentBlocks(FillBlocks(w.blocks, EnvelopeRange(w.view, id)), chain)
    ensures CoherentEnvelopes(FillEnvelopes(w.envelopes, EnvelopeRange(w.view, id)), chain)
  {
    FilledBlocksAreCoherent(chain, w, id);
    FilledEnvelopesAreCoherent(chain, w, id);
    FillNothing(w.blocks, w.envelopes);
  }

  lemma SetIfSuccess(chain: seq<Entry>, envelopes: EnvelopeCache, d: Done<EnvelopeRead>, id: Id)
    requires CoherentEnvelopes(envelopes, chain)
    requires d.envelopes == if d.result.Success? then envelopes.Set(id, d.result.value) else envelopes
    requires d.result.Success? ==> forall k :: 0 <= k < |chain| && Names(id, chain[k]) ==> RightEnvelope(chain[k], d.result.value)
    ensures CoherentEnvelopes(d.envelopes, chain)
  {
    if d.result.Success? {
      SetEnvelopeKeepsCoherence(chain, envelopes, id, d.result.value);
    }
  }
}
