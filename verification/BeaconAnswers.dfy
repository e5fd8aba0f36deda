/**
 When the cached reads answer, with what, and what they leave cached, in terms of the caches, the archive and
 the node's own answers.
 */
module BeaconAnswers {
  import opened Wrappers
  import opened Chain
  import opened BeaconNode

  // ----- Confirming a missed slot -----

  /** The node first answers for a slot n slots on, with a block whose parent it then knows to be older. */
  ghost predicate ConfirmedAt(views: nat -> View, slot: Slot, n: nat) {
    && (forall i: nat {:trigger views(i)} :: 1 <= i < n ==> views(i).block(BySlot(slot + i)).Absent?)
    && var answer := views(n).block(BySlot(slot + n));
       && answer.Found?
       && var parent := views(n + 1).header(answer.value.parentRoot);
          parent.Found? && parent.value < slot
  }

  /** The spec is known, and within two epochs of it a later block confirms that the slot is empty. */
  ghost predicate Confirmable(views: nat -> View, slot: Slot) {
    var slotsPerEpoch := views(0).slotsPerEpoch;
    slotsPerEpoch.Some? && exists n: nat :: 1 <= n <= 2 * slotsPerEpoch.value && ConfirmedAt(views, slot, n)
  }

  lemma ConfirmedIsAt(views: nat -> View, slot: Slot)
    requires ConfirmMissed(views, slot).Success?
    ensures Confirmable(views, slot)
  {
    var first := FirstAnswered(views, slot, 1, 2 * views(0).slotsPerEpoch.value);
    assert ConfirmedAt(views, slot, first.value);
  }

  lemma AtIsConfirmed(views: nat -> View, slot: Slot, n: nat)
    requires views(0).slotsPerEpoch.Some? && 1 <= n <= 2 * views(0).slotsPerEpoch.value && ConfirmedAt(views, slot, n)
    ensures ConfirmMissed(views, slot).Success?
  {
    assert FirstAnswered(views, slot, 1, 2 * views(0).slotsPerEpoch.value) == Some(n);
  }

  lemma ConfirmMissedIff(views: nat -> View, slot: Slot)
    ensures ConfirmMissed(views, slot).Success? <==> Confirmable(views, slot)
  {
    hide ConfirmMissed, ConfirmedAt;
    if ConfirmMissed(views, slot).Success? {
      ConfirmedIsAt(views, slot);
    }
    if Confirmable(views, slot) {
      var n: nat :| 1 <= n <= 2 * views(0).slotsPerEpoch.value && ConfirmedAt(views, slot, n);
      AtIsConfirmed(views, slot, n);
    }
  }

  /** Why a slot is not confirmed: the spec is unknown, no slot of two epochs is answered, or the first one
      answered fails, or its block's parent is unknown or not older. */
  lemma WhyUnconfirmed(views: nat -> View, slot: Slot, n: nat)
    ensures views(0).slotsPerEpoch.None? ==> ConfirmMissed(views, slot) == Failure(SpecUnavailable)
    ensures views(0).slotsPerEpoch.Some? && n == 2 * views(0).slotsPerEpoch.value
              && (forall i: nat {:trigger views(i)} :: 1 <= i <= n ==> views(i).block(BySlot(slot + i)).Absent?) ==>
              ConfirmMissed(views, slot) == Failure(NoBlockAfter)
    ensures views(0).slotsPerEpoch.Some? && 1 <= n <= 2 * views(0).slotsPerEpoch.value
              && (forall i: nat {:trigger views(i)} :: 1 <= i < n ==> views(i).block(BySlot(slot + i)).Absent?) ==>
              var answer := views(n).block(BySlot(slot + n));
              && (answer.Failed? ==> ConfirmMissed(views, slot) == Failure(BlockRequestFailed))
              && (answer.Found? ==>
                    var parent := views(n + 1).header(answer.value.parentRoot);
                    && (parent.Failed? ==> ConfirmMissed(views, slot) == Failure(HeaderRequestFailed))
                    && (parent.Absent? ==> ConfirmMissed(views, slot) == Failure(HistoryTooShort))
                    && (parent.Found? && parent.value >= slot ==> ConfirmMissed(views, slot) == Failure(ParentNotOlder)))
  {
    if views(0).slotsPerEpoch.Some? {
      var last := 2 * views(0).slotsPerEpoch.value;
      var first := FirstAnswered(views, slot, 1, last);
      if 1 <= n <= last && (forall i: nat {:trigger views(i)} :: 1 <= i < n ==> views(i).block(BySlot(slot + i)).Absent?)
         && !views(n).block(BySlot(slot + n)).Absent? {
        assert first == Some(n);
      }
    }
  }

  // ----- Reading a block -----

  predicate Holds<V(==)>(cache: Cache<V>, id: Id, v: Option<V>) {
    match id
    case BySlot(slot) => slot in cache.bySlot && cache.bySlot[slot] == v
    case ByRoot(root) => root in cache.byRoot && cache.byRoot[root] == v
  }

  predicate Knows<V>(cache: Cache<V>, id: Id) {
    match id
    case BySlot(slot) => slot in cache.bySlot
    case ByRoot(root) => root in cache.byRoot
  }

  /** The archive's range for the identifier's slot has the slot. */
  predicate InArchive(view: View, id: Id) {
    id.BySlot? && view.archive(id.slot).Found? && id.slot in view.archive(id.slot).value
  }

  /** The answer of a block read: what is cached; else what is archived; else the node's block; else "none" for
      a root the node has nothing for, or a slot that is confirmed empty. */
  ghost predicate Reads(w: World, id: Id, block: Option<Block>) {
    if Knows(w.blocks, id) then Holds(w.blocks, id, block)
    else if InArchive(w.view, id) then block == w.view.archive(id.slot).value[id.slot].block
    else
      match w.view.block(id)
      case Found(b) => block == Some(b)
      case Absent => block == None && (id.BySlot? ==> Confirmable(w.later, id.slot))
      case Failed => false
  }

  ghost predicate Readable(w: World, id: Id) {
    exists block: Option<Block> :: Reads(w, id, block)
  }

  /** A block read succeeds with exactly this answer. */
  lemma ReadAnswersIff(w: World, id: Id, block: Option<Block>)
    ensures ReadBlock(w, id).result == Success(block) <==> Reads(w, id, block)
  {
    hide ConfirmMissed, BlocksAfterConfirm, FillBlocks, FillEnvelopes;
    if id.BySlot? {
      ConfirmMissedIff(w.later, id.slot);
    }
  }

  lemma ReadSucceedsIff(w: World, id: Id)
    ensures ReadBlock(w, id).result.Success? <==> Readable(w, id)
  {
    hide ReadBlock, Reads;
    if ReadBlock(w, id).result.Success? {
      ReadAnswersIff(w, id, ReadBlock(w, id).result.value);
    }
    if block: Option<Block> :| Reads(w, id, block) {
      ReadAnswersIff(w, id, block);
    }
  }

  /** Why a read that is neither cached nor archived fails. */
  lemma WhyUnread(w: World, id: Id)
    requires !Knows(w.blocks, id) && !InArchive(w.view, id)
    ensures w.view.block(id).Failed? ==> ReadBlock(w, id).result == Failure(BlockRequestFailed)
    ensures w.view.block(id).Absent? && id.BySlot? && !Confirmable(w.later, id.slot) ==>
              ConfirmMissed(w.later, id.slot).Failure? && ReadBlock(w, id).result == Failure(ConfirmMissed(w.later, id.slot).error)
  {
    hide ConfirmMissed, BlocksAfterConfirm, FillBlocks, FillEnvelopes;
    if id.BySlot? {
      ConfirmMissedIff(w.later, id.slot);
    }
  }

  /** A read that was not answered from the cache leaves its identifier cached exactly if it succeeds, with
      its answer; a failure is asked again. */
  lemma ReadIsCached(w: World, id: Id)
    requires !Knows(w.blocks, id)
    ensures forall block :: Reads(w, id, block) ==> Holds(ReadBlock(w, id).blocks, id, block)
    ensures Knows(ReadBlock(w, id).blocks, id) <==> Readable(w, id)
  {
    hide Reads, ConfirmMissed;
    ReadSucceedsIff(w, id);
    forall block: Option<Block> | Reads(w, id, block)
      ensures Holds(ReadBlock(w, id).blocks, id, block)
    {
      ReadAnswersIff(w, id, block);
    }
    if id.BySlot? && w.later(0).slotsPerEpoch.Some? {
      var n := FirstAnswered(w.later, id.slot, 1, 2 * w.later(0).slotsPerEpoch.value);
      assert n.Some? ==> id.slot + n.value != id.slot;
    }
  }

  /** A slot's read that asks the archive caches the blocks of the whole range found there, but for a later
      slot whose block a confirmation fetched from the node. */
  lemma ArchivedBlocksAreCached(w: World, id: Id, s: Slot)
    requires !Knows(w.blocks, id) && id.BySlot? && w.view.archive(id.slot).Found? && s in w.view.archive(id.slot).value
    ensures var d := ReadBlock(w, id);
            && Knows(d.blocks, BySlot(s))
            && (InArchive(w.view, id) || s < id.slot ==> Holds(d.blocks, BySlot(s), w.view.archive(id.slot).value[s].block))
  {
    hide ConfirmMissed, FillEnvelopes;
  }

  /** It also caches all of the range's known envelopes, and touches no other. */
  lemma ArchivedEnvelopesAreCached(w: World, id: Id, s: Slot)
    requires !Knows(w.blocks, id) && id.BySlot? && w.view.archive(id.slot).Found?
    ensures var range := w.view.archive(id.slot).value;
            var d := ReadBlock(w, id);
            if s in range && range[s].envelopeKnown then Holds(d.envelopes, BySlot(s), range[s].envelope)
            else forall v :: Holds(d.envelopes, BySlot(s), v) <==> Holds(w.envelopes, BySlot(s), v)
  {
    hide ConfirmMissed, FillBlocks, BlocksAfterConfirm;
  }

  /** Reads of roots, and reads that the cache answers, take nothing from the archive. */
  lemma OnlySlotsAskTheArchive(w: World, id: Id)
    ensures Knows(w.blocks, id) || id.ByRoot? || !w.view.archive(id.slot).Found? ==> ReadBlock(w, id).envelopes == w.envelopes
    ensures Knows(w.blocks, id) ==> ReadBlock(w, id).blocks == w.blocks
  {
    hide ConfirmMissed, BlocksAfterConfirm;
    FillNothing(w.blocks, w.envelopes);
  }

  /** Every other entry of the block cache stays: those of roots, and of slots before the one read that the
      archive did not answer for. */
  lemma ReadKeepsOthers(w: World, id: Id, key: Id)
    requires key != id
    requires key.BySlot? ==> id.ByRoot? || key.slot < id.slot
    requires key.BySlot? && id.BySlot? && w.view.archive(id.slot).Found? ==> key.slot !in w.view.archive(id.slot).value
    ensures forall v :: Holds(ReadBlock(w, id).blocks, key, v) <==> Holds(w.blocks, key, v)
  {
    hide ConfirmMissed, FillEnvelopes, BlocksAfterConfirm;
    if id.BySlot? {
      var filled := FillBlocks(w.blocks, RangeFor(w.view, id));
      ConfirmKeepsEarlier(filled, w.later, id.slot, key);
      forall v: Option<Block>
        ensures Holds(ReadBlock(w, id).blocks, key, v) <==> Holds(w.blocks, key, v)
      {
        assert Holds(BlocksAfterConfirm(filled, w.later, id.slot), key, v) <==> Holds(filled, key, v);
      }
    }
  }

  lemma ConfirmKeepsEarlier(blocks: BlockCache, views: nat -> View, slot: Slot, key: Id)
    requires key.BySlot? ==> key.slot <= slot
    ensures forall v :: Holds(BlocksAfterConfirm(blocks, views, slot), key, v) <==> Holds(blocks, key, v)
  {
  }

  // ----- Withheld payloads -----

  /** The first slot after the block whose read does not answer "none" is i slots on and holds the next block. */
  ghost predicate NextBlock(world: nat -> World, slot: Slot, i: nat, next: Block) {
    && 1 <= i
    && (forall j: nat {:trigger world(j)} :: 1 <= j < i ==> Reads(world(j), BySlot(slot + j), None))
    && Reads(world(i), BySlot(slot + i), Some(next))
  }

  /** The block is read and is a Gloas block; the next block, within two epochs, is one too and builds on the
      hash the block's bid promised, or else on the one that bid built on. */
  ghost predicate Decides(world: nat -> World, id: Id, withheld: bool) {
    exists block: Block, next: Block, i: nat ::
      && Reads(world(0), id, Some(block)) && block.body.Bid?
      && world(0).view.slotsPerEpoch.Some? && i <= 2 * world(0).view.slotsPerEpoch.value
      && NextBlock(world, block.slot, i, next) && next.body.Bid?
      && (if withheld then next.body.parentHash == block.body.parentHash && next.body.parentHash != block.body.blockHash
          else next.body.parentHash == block.body.blockHash)
  }

  /** The search from offset i on decides exactly by the first block found. */
  lemma {:induction false} SearchIff(world: nat -> World, block: Block, i: nat, last: nat, blocks: BlockCache, envelopes: EnvelopeCache,
                                     withheld: bool) returns (n: nat, next: Block)
    requires block.body.Bid? && 1 <= i
    requires forall j: nat {:trigger world(j)} :: 1 <= j < i ==> Reads(world(j), BySlot(block.slot + j), None)
    requires Search(Lookups(world, block.slot), block.body, i, last, blocks, envelopes).result == Success(withheld)
    ensures i <= n <= last && NextBlock(world, block.slot, n, next) && next.body.Bid?
    ensures BidPayloadWithheld(block.body, next.body) == Success(withheld)
    decreases last + 1 - i
  {
    hide Reads, ReadBlock;
    var read := Lookups(world, block.slot)(i);
    assert read == ReadBlock(world(i), BySlot(block.slot + i));
    if read.result == Success(None) {
      ReadAnswersIff(world(i), BySlot(block.slot + i), None);
      n, next := SearchIff(world, block, i + 1, last, read.blocks, read.envelopes, withheld);
    } else {
      n, next := i, read.result.value.value;
      ReadAnswersIff(world(i), BySlot(block.slot + i), Some(next));
    }
  }

  lemma {:induction false} SearchFinds(world: nat -> World, block: Block, i: nat, last: nat, blocks: BlockCache, envelopes: EnvelopeCache,
                                       n: nat, next: Block)
    requires block.body.Bid? && 1 <= i <= n <= last && NextBlock(world, block.slot, n, next) && next.body.Bid?
    ensures Search(Lookups(world, block.slot), block.body, i, last, blocks, envelopes).result == BidPayloadWithheld(block.body, next.body)
    decreases n - i
  {
    hide Reads, ReadBlock, BidPayloadWithheld;
    var read := Lookups(world, block.slot)(i);
    assert read == ReadBlock(world(i), BySlot(block.slot + i));
    if i < n {
      ReadAnswersIff(world(i), BySlot(block.slot + i), None);
      SearchFinds(world, block, i + 1, last, read.blocks, read.envelopes, n, next);
    } else {
      ReadAnswersIff(world(i), BySlot(block.slot + i), Some(next));
    }
  }

  lemma WithheldDecides(world: nat -> World, id: Id, withheld: bool)
    requires Withheld(world, id).result == Success(withheld)
    ensures Decides(world, id, withheld)
  {
    hide Reads, ReadBlock, Search, NextBlock;
    var read := ReadBlock(world(0), id);
    var block := read.result.value.value;
    ReadAnswersIff(world(0), id, Some(block));
    var last := 2 * world(0).view.slotsPerEpoch.value;
    var n, next := SearchIff(world, block, 1, last, read.blocks, read.envelopes, withheld);
  }

  lemma DecidesWithheld(world: nat -> World, id: Id, withheld: bool)
    requires Decides(world, id, withheld)
    ensures Withheld(world, id).result == Success(withheld)
  {
    hide Reads, ReadBlock, Search;
    var block: Block, next: Block, i: nat :|
      && Reads(world(0), id, Some(block)) && block.body.Bid?
      && world(0).view.slotsPerEpoch.Some? && i <= 2 * world(0).view.slotsPerEpoch.value
      && NextBlock(world, block.slot, i, next) && next.body.Bid?
      && (if withheld then next.body.parentHash == block.body.parentHash && next.body.parentHash != block.body.blockHash
          else next.body.parentHash == block.body.blockHash);
    ReadAnswersIff(world(0), id, Some(block));
    var read := ReadBlock(world(0), id);
    SearchFinds(world, block, 1, 2 * world(0).view.slotsPerEpoch.value, read.blocks, read.envelopes, i, next);
  }

  /** payloadWithheld answers, and with what, on any answers of the node. */
  lemma WithheldIff(world: nat -> World, id: Id, withheld: bool)
    ensures Withheld(world, id).result == Success(withheld) <==> Decides(world, id, withheld)
  {
    hide *;
    if Withheld(world, id).result == Success(withheld) {
      WithheldDecides(world, id, withheld);
    }
    if Decides(world, id, withheld) {
      DecidesWithheld(world, id, withheld);
    }
  }

  // ----- Reading an envelope -----

  /** An archive with an envelope sidecar for the slot knows its envelope. */
  predicate EnvelopeInArchive(view: View, id: Id) {
    InArchive(view, id) && view.archiveHasEnvelopes(id.slot) && view.archive(id.slot).value[id.slot].envelopeKnown
  }

  /** The answer of an envelope read: what is cached; else what is archived; else what the provider answers
      with, data or none; else "none" for a 404 whose payload is decided to be withheld. */
  ghost predicate ReadsEnvelope(world: nat -> World, id: Id, envelope: Option<Envelope>) {
    var w := world(0);
    if Knows(w.envelopes, id) then Holds(w.envelopes, id, envelope)
    else if EnvelopeInArchive(w.view, id) then envelope == w.view.archive(id.slot).value[id.slot].envelope
    else
      match w.view.envelope(id)
      case Data(v) => envelope == Some(v)
      case NoData => envelope == None
      case NotFound => envelope == None && Decides(Later(world), id, true)
      case RequestFailed => false
  }

  /** An envelope read succeeds with exactly this answer. */
  lemma EnvelopeAnswersIff(world: nat -> World, id: Id, envelope: Option<Envelope>)
    ensures ReadEnvelope(world, id).result == Success(envelope) <==> ReadsEnvelope(world, id, envelope)
  {
    hide Withheld, Decides, FillBlocks, FillEnvelopes;
    WithheldIff(Later(world), id, true);
  }

  /** A successful answer is cached under the identifier, the provider's data included; and why others fail. */
  lemma EnvelopeIsCached(world: nat -> World, id: Id)
    ensures forall envelope :: ReadsEnvelope(world, id, envelope) ==> Holds(ReadEnvelope(world, id).envelopes, id, envelope)
    ensures !Knows(world(0).envelopes, id) && !EnvelopeInArchive(world(0).view, id) ==>
              && (world(0).view.envelope(id).RequestFailed? ==> ReadEnvelope(world, id).result == Failure(EnvelopeRequestFailed))
              && (world(0).view.envelope(id).NotFound? && Decides(Later(world), id, false) ==>
                    ReadEnvelope(world, id).result == Failure(EnvelopeNotFound))
  {
    hide Withheld, Decides, FillBlocks;
    WithheldIff(Later(world), id, true);
    WithheldIff(Later(world), id, false);
  }

  /** An envelope read takes a range from the archive only for a slot that an envelope sidecar covers, and
      then caches all of its blocks. */
  lemma SidecarsAskTheArchive(world: nat -> World, id: Id)
    requires !Knows(world(0).envelopes, id) && !world(0).view.envelope(id).NotFound?
    ensures var w := world(0);
            var d := ReadEnvelope(world, id);
            if id.BySlot? && w.view.archiveHasEnvelopes(id.slot) && w.view.archive(id.slot).Found? then
              forall s :: s in w.view.archive(id.slot).value ==> Holds(d.blocks, BySlot(s), w.view.archive(id.slot).value[s].block)
            else
              d.blocks == w.blocks && forall key, v :: key != id ==> (Holds(d.envelopes, key, v) <==> Holds(w.envelopes, key, v))
  {
    hide Withheld;
    FillNothing(world(0).blocks, world(0).envelopes);
  }
}
