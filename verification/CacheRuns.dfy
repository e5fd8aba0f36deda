/**
 Whole histories of the node's caches under concurrent callers, and the agreement between the two
 places that tell withheld payloads apart.
 */
module CacheRuns {
  import opened Wrappers
  import opened Chain
  import opened BeaconNode
  import opened BeaconReads
  import CeilingWalk

  /** One atomic change to the caches.  A call for an envelope makes its lookups one at a time, each on
      whatever the caches hold then, and stores its answer at the end. */
  datatype Action =
    | Read(view: View, later: nat -> View, id: Id)
    | FillForEnvelope(view: View, id: Id)
    | Evict
    | StoreEnvelope(world: nat -> World, id: Id)

  /** Each lookup of a call met a truthful outside and caches of some earlier moment. */
  ghost predicate LookupsFromPast(chain: seq<Entry>, past: seq<Caches>, world: nat -> World) {
    forall j: nat {:trigger world(j)} :: TruthfulOutside(world(j), chain) && Caches(world(j).blocks, world(j).envelopes) in past
  }

  ghost predicate Step(chain: seq<Entry>, past: seq<Caches>, a: Action, after: Caches)
    requires past != []
  {
    var now := past[|past| - 1];
    match a
    case Read(view, later, id) =>
      var w := World(view, later, now.blocks, now.envelopes);
      TruthfulOutside(w, chain) && after == Caches(ReadBlock(w, id).blocks, ReadBlock(w, id).envelopes)
    case FillForEnvelope(view, id) =>
      TruthfulNode(view, chain) && TruthfulArchive(view, chain) &&
      after == Caches(FillBlocks(now.blocks, EnvelopeRange(view, id)), FillEnvelopes(now.envelopes, EnvelopeRange(view, id)))
    case Evict => Evicts(now, after)
    case StoreEnvelope(world, id) =>
      var answer := ReadEnvelope(world, id).result;
      && LookupsFromPast(chain, past, world)
      && answer.Success? && after == Caches(now.blocks, now.envelopes.Set(id, answer.value))
  }

  const EMPTY: Caches := Caches(Cache(map[], map[]), Cache(map[], map[]))

  ghost predicate IsHistory(chain: seq<Entry>, states: seq<Caches>, actions: seq<Action>) {
    && |states| == |actions| + 1
    && states[0] == EMPTY
    && forall i :: 0 <= i < |actions| ==> Step(chain, states[..i + 1], actions[i], states[i + 1])
  }

  ghost predicate Coherent(chain: seq<Entry>, c: Caches) {
    CoherentBlocks(c.blocks, chain) && CoherentEnvelopes(c.envelopes, chain)
  }

  /** The step stores "none" for a revealed payload that the provider reported success without data for. */
  ghost predicate StoresHidden(chain: seq<Entry>, a: Action) {
    a.StoreEnvelope? && Hides(chain, a.world(0), a.id)
  }

  // ----- The block cache -----

  lemma StepKeepsBlocks(chain: seq<Entry>, past: seq<Caches>, a: Action, after: Caches)
    requires Linked(chain) && past != [] && CoherentBlocks(past[|past| - 1].blocks, chain) && Step(chain, past, a, after)
    ensures CoherentBlocks(after.blocks, chain)
  {
    hide ReadBlock, TruthfulNode, ReadEnvelope;
    var now := past[|past| - 1];
    match a {
      case Read(view, later, id) =>
        ReadBlockIsRight(chain, World(view, later, now.blocks, now.envelopes), id);
      case FillForEnvelope(view, id) =>
        EnvelopeFillKeepsBlocks(chain, view, now, id);
      case Evict => EvictionKeepsBlocks(chain, now, after);
      case StoreEnvelope(_, _) =>
    }
  }

  /** In every state of every history, whatever the provider reports about envelopes, a slot is cached as the
      canonical block there, or as empty only if the chain is empty there. */
  lemma {:induction false} BlocksStayCoherent(chain: seq<Entry>, states: seq<Caches>, actions: seq<Action>, k: nat)
    requires Linked(chain) && IsHistory(chain, states, actions) && k < |states|
    ensures CoherentBlocks(states[k].blocks, chain)
  {
    if k > 0 {
      hide Step, CoherentBlocks, Linked;
      EmptyIsCoherent(chain);
      var i := k - 1;
      BlocksStayCoherent(chain, states, actions, i);
      assert Step(chain, states[..i + 1], actions[i], states[i + 1]);
      assert states[..i + 1][i] == states[i];
      StepKeepsBlocks(chain, states[..i + 1], actions[i], states[i + 1]);
    }
  }

  lemma EmptyIsCoherent(chain: seq<Entry>)
    ensures Coherent(chain, EMPTY)
  {
  }

  lemma EnvelopeFillKeepsBlocks(chain: seq<Entry>, view: View, now: Caches, id: Id)
    requires TruthfulArchive(view, chain) && CoherentBlocks(now.blocks, chain)
    ensures CoherentBlocks(FillBlocks(now.blocks, EnvelopeRange(view, id)), chain)
  {
    hide CoherentBlocks, TruthfulArchive;
    FilledBlocksAreCoherent(chain, World(view, (n: nat) => view, now.blocks, now.envelopes), id);
    FillNothing(now.blocks, now.envelopes);
  }

  // ----- Both caches -----

  lemma StepKeepsCoherence(chain: seq<Entry>, base: Base, past: seq<Caches>, a: Action, after: Caches)
    requires Canonical(chain, base) && past != [] && (forall c :: c in past ==> Coherent(chain, c))
    requires Step(chain, past, a, after) && !StoresHidden(chain, a)
    ensures Coherent(chain, after)
  {
    hide ReadBlock, TruthfulNode, ReadEnvelope, LookupsFromPast, CoherentBlocks, CoherentEnvelopes, Hides, Evicts;
    var now := past[|past| - 1];
    assert Coherent(chain, now);
    match a {
      case Read(view, later, id) =>
        ReadKeepsCoherence(chain, World(view, later, now.blocks, now.envelopes), id);
      case FillForEnvelope(view, id) =>
        FillKeepsCoherence(chain, view, now, id);
      case Evict =>
        EvictionKeepsCoherence(chain, now, after);
      case StoreEnvelope(world, id) =>
        WorldsArePast(chain, past, world);
        UnhiddenAnswerIsRight(chain, base, world, id);
        SetEnvelopeKeepsCoherence(chain, now.envelopes, id, ReadEnvelope(world, id).result.value);
    }
  }

  lemma FillKeepsCoherence(chain: seq<Entry>, view: View, now: Caches, id: Id)
    requires TruthfulNode(view, chain) && TruthfulArchive(view, chain) && Coherent(chain, now)
    ensures CoherentBlocks(FillBlocks(now.blocks, EnvelopeRange(view, id)), chain)
    ensures CoherentEnvelopes(FillEnvelopes(now.envelopes, EnvelopeRange(view, id)), chain)
  {
    hide CoherentBlocks, CoherentEnvelopes, TruthfulNode, TruthfulArchive;
    EnvelopeFillIsCoherent(chain, World(view, (n: nat) => view, now.blocks, now.envelopes), id);
  }

  lemma WorldsArePast(chain: seq<Entry>, past: seq<Caches>, world: nat -> World)
    requires LookupsFromPast(chain, past, world) && forall c :: c in past ==> Coherent(chain, c)
    ensures GoodWorlds(world, chain)
  {
    hide CoherentBlocks, CoherentEnvelopes, TruthfulOutside;
    forall i: nat
      ensures GoodWorld(world(i), chain)
    {
      assert Coherent(chain, Caches(world(i).blocks, world(i).envelopes));
    }
  }

  lemma HiddenStoreBreaks(chain: seq<Entry>, past: seq<Caches>, a: Action, after: Caches)
    requires past != [] && Step(chain, past, a, after) && StoresHidden(chain, a)
    ensures !Coherent(chain, after)
  {
    hide ReadEnvelope, Hides, CoherentEnvelopes;
    HiddenIsStored(chain, a.world, a.id);
    assert !CoherentEnvelopes(past[|past| - 1].envelopes.Set(a.id, None), chain);
  }

  /** Both caches are right in all states of a history up to one exactly if no step before it stored "none"
      for a revealed payload the provider hid: a slot is cached as its canonical block or as empty only if it
      is, and a block's envelope as its payload or as absent only if the payload was withheld. */
  lemma {:induction false} CachesStayCoherentIff(chain: seq<Entry>, base: Base, states: seq<Caches>, actions: seq<Action>, k: nat)
    requires Canonical(chain, base) && IsHistory(chain, states, actions) && k < |states|
    ensures (forall i :: 0 <= i <= k ==> Coherent(chain, states[i])) <==> (forall i :: 0 <= i < k ==> !StoresHidden(chain, actions[i]))
  {
    hide Step, Coherent, Canonical, StoresHidden;
    EmptyIsCoherent(chain);
    if k > 0 {
      var n := k - 1;
      CachesStayCoherentIff(chain, base, states, actions, n);
      var past := states[..n + 1];
      assert Step(chain, past, actions[n], states[n + 1]);
      if StoresHidden(chain, actions[n]) {
        HiddenStoreBreaks(chain, past, actions[n], states[n + 1]);
      } else if forall i :: 0 <= i < k ==> !StoresHidden(chain, actions[i]) {
        forall c | c in past
          ensures Coherent(chain, c)
        {
          var i :| 0 <= i <= n && states[i] == c;
        }
        StepKeepsCoherence(chain, base, past, actions[n], states[n + 1]);
      }
    }
  }

  // ----- Agreement with the ceiling walk -----

  lemma {:induction false} HeadUnchangedSince(chain: seq<Entry>, base: Base, k: nat, n: nat)
    requires k <= n <= |chain| && (forall j :: k <= j < n ==> !chain[j].revealed)
    ensures Head(chain, base, k) == Head(chain, base, n)
  {
    if k < n {
      HeadUnchangedSince(chain, base, k, n - 1);
    }
  }

  /** Among the ancestors the ceiling walk visits from entry i, those it goes on past are exactly those
      whose next bid marks their payload as withheld. */
  lemma WalkSkipsWhatBidsWithhold(chain: seq<Entry>, base: Base, node: CeilingWalk.Node, i: nat, k: nat)
    requires Canonical(chain, base) && CeilingWalk.Truthful(node, chain)
    requires k < i < |chain| && Nearest(chain, i) <= k + 1 && chain[k].block.body.Bid?
    requires chain[i].block.body.Bid? && node.block(chain[k].root).Found?
    ensures var v := CeilingWalk.VisitAncestor(node, chain[i].block.body.parentHash, chain[k].root);
            && chain[k + 1].block.body.Bid?
            && (v == CeilingWalk.GoTo(chain[k].block.parentRoot) <==>
                  BidPayloadWithheld(chain[k].block.body, chain[k + 1].block.body) == Success(true))
  {
    assert BuildsOnHeadAt(chain, base, i);
    HeadUnchangedSince(chain, base, k + 1, i);
    CeilingWalk.VisitOnChain(chain, base, node, k + 1);
    ConsecutiveBidsDecide(chain, base, k);
  }
}
