/**
 The execution ceiling of the block iterator: the number of the execution block the finalized
 beacon block stands on (fetchExecutionCeiling and its two helpers).
 */
module CeilingWalk {
  import opened Wrappers
  import opened Chain

  const MAX_PAYLOAD_PARENT_HOPS: nat := 64

  /** The all-zero root a checkpoint has before the first epoch finalizes. */
  const ZERO_ROOT: Root := 0

  datatype CeilingError =
    | FinalityFailed
    | NoCheckpoint
    | BlockFailed
    | BlockAbsent
    | NoExecutionBlock
    | HashMismatch
    | EnvelopeFailed
    | EnvelopeAbsent
    | TooManyHops

  type Ceiling = Result<nat, CeilingError>

  /** What the beacon node answers: the finalized root, blocks by root, the block at slot 0, and the
      payload number in the envelope of a block, by the block's root. */
  datatype Node = Node(finality: Fetch<Root>, block: Root -> Fetch<Block>, genesis: Fetch<Block>, envelope: Root -> Fetch<nat>)

  /** The node may fail or lack an answer, but never contradicts the canonical chain. */
  ghost predicate Truthful(node: Node, chain: seq<Entry>) {
    && (forall i {:trigger node.block(chain[i].root)} :: 0 <= i < |chain| && node.block(chain[i].root).Found? ==>
          node.block(chain[i].root).value == chain[i].block)
    && (forall i {:trigger node.envelope(chain[i].root)} :: 0 <= i < |chain| && node.envelope(chain[i].root).Found? ==>
          node.envelope(chain[i].root).value == chain[i].number)
    && (|chain| > 0 ==> !node.block(chain[0].block.parentRoot).Found?)
  }

  /** revealedBlockNumber: the payload number in the block itself, or from Gloas on in its envelope. */
  function RevealedNumber(node: Node, root: Root, block: Block): Ceiling {
    match block.body
    case NoPayload => Failure(NoExecutionBlock)
    case Payload(_, number) => Success(number)
    case Bid(_, _) =>
      match node.envelope(root)
      case Failed => Failure(EnvelopeFailed)
      case Absent => Failure(EnvelopeAbsent)
      case Found(number) => Success(number)
  }

  /** One ancestor visited by the walk: the answer if the walk ends here, or the next parent root. */
  datatype Visit = Stop(result: Ceiling) | GoTo(parent: Root)

  function VisitAncestor(node: Node, target: Hash, root: Root): Visit {
    match node.block(root)
    case Failed => Stop(Failure(BlockFailed))
    case Absent => Stop(Failure(BlockAbsent))
    case Found(ancestor) =>
      match ancestor.body
      case NoPayload => Stop(Failure(NoExecutionBlock))
      case Payload(hash, _) =>
        Stop(if hash == target then RevealedNumber(node, root, ancestor) else Failure(HashMismatch))
      case Bid(_, hash) =>
        if hash == target then Stop(RevealedNumber(node, root, ancestor)) else GoTo(ancestor.parentRoot)
  }

  function Walk(node: Node, target: Hash, root: Root, hops: nat): Ceiling
    decreases hops
  {
    if hops == 0 then Failure(TooManyHops)
    else
      match VisitAncestor(node, target, root)
      case Stop(result) => result
      case GoTo(parent) => Walk(node, target, parent, hops - 1)
  }

  method PayloadParentNumber(node: Node, block: Block) returns (r: Ceiling)
    ensures block.body.Bid? ==> r == Walk(node, block.body.parentHash, block.parentRoot, MAX_PAYLOAD_PARENT_HOPS)
    ensures !block.body.Bid? ==> r == Failure(NoExecutionBlock)
  {
    if !block.body.Bid? {
      return Failure(NoExecutionBlock);
    }
    var target := block.body.parentHash;
    var parentRoot := block.parentRoot;
    var hop := 0;
    while hop < MAX_PAYLOAD_PARENT_HOPS
      invariant hop <= MAX_PAYLOAD_PARENT_HOPS
      invariant Walk(node, target, parentRoot, MAX_PAYLOAD_PARENT_HOPS - hop)
             == Walk(node, target, block.parentRoot, MAX_PAYLOAD_PARENT_HOPS)
    {
      var answer := node.block(parentRoot);
      if answer.Failed? {
        return Failure(BlockFailed);
      }
      if answer.Absent? {
        return Failure(BlockAbsent);
      }
      var ancestor := answer.value;
      if ancestor.body.NoPayload? {
        return Failure(NoExecutionBlock);
      }
      var hash := if ancestor.body.Payload? then ancestor.body.hash else ancestor.body.blockHash;
      if hash == target {
        return RevealedNumber(node, parentRoot, ancestor);
      }
      if !ancestor.body.Bid? {
        return Failure(HashMismatch);
      }
      parentRoot := ancestor.parentRoot;
      hop := hop + 1;
    }
    return Failure(TooManyHops);
  }

  /** The ceiling a finalized block stands for, given the answer to a block lookup. */
  function CeilingOfBlock(node: Node, answer: Fetch<Block>): Ceiling {
    match answer
    case Failed => Failure(BlockFailed)
    case Absent => Failure(BlockAbsent)
    case Found(block) =>
      match block.body
      case NoPayload => Failure(NoExecutionBlock)
      case Payload(_, number) => Success(number)
      case Bid(parentHash, _) => Walk(node, parentHash, block.parentRoot, MAX_PAYLOAD_PARENT_HOPS)
  }

  function ExecutionCeiling(node: Node): Ceiling {
    match node.finality
    case Failed => Failure(FinalityFailed)
    case Absent => Failure(NoCheckpoint)
    case Found(root) =>
      CeilingOfBlock(node, if root == ZERO_ROOT then node.genesis else node.block(root))
  }

  method FetchExecutionCeiling(node: Node) returns (r: Ceiling)
    ensures r == ExecutionCeiling(node)
  {
    if node.finality.Failed? {
      return Failure(FinalityFailed);
    }
    if node.finality.Absent? {
      return Failure(NoCheckpoint);
    }
    var root := node.finality.value;
    var answer := if root == ZERO_ROOT then node.genesis else node.block(root);
    if answer.Failed? {
      return Failure(BlockFailed);
    }
    if answer.Absent? {
      return Failure(BlockAbsent);
    }
    var block := answer.value;
    if block.body.Bid? {
      r := PayloadParentNumber(node, block);
      return;
    }
    if block.body.NoPayload? {
      return Failure(NoExecutionBlock);
    }
    return Success(block.body.number);
  }

  // ----- When there is a ceiling -----

  /** Every root but the last is that of a Gloas block whose bid promises another payload, and is followed by
      its parent's root. */
  ghost predicate Ancestors(node: Node, target: Hash, roots: seq<Root>) {
    roots != [] && forall j :: 0 <= j < |roots| - 1 ==> Passed(node, target, roots[j], roots[j + 1])
  }

  predicate Passed(node: Node, target: Hash, root: Root, parent: Root) {
    var answer := node.block(root);
    answer.Found? && answer.value.body.Bid? && answer.value.body.blockHash != target && answer.value.parentRoot == parent
  }

  /** The block with the root carries the target payload, number v: in itself, or promised and in its envelope. */
  predicate Discloses(node: Node, target: Hash, root: Root, v: nat) {
    var answer := node.block(root);
    answer.Found? &&
    (answer.value.body == Payload(target, v)
     || (answer.value.body.Bid? && answer.value.body.blockHash == target && node.envelope(root) == Found(v)))
  }

  /** The walk from a root down a list of at most `hops` ancestors. */
  ghost predicate LeadsTo(node: Node, target: Hash, root: Root, hops: nat, v: nat) {
    exists roots: seq<Root> ::
      Ancestors(node, target, roots) && roots[0] == root && |roots| <= hops && Discloses(node, target, roots[|roots| - 1], v)
  }

  lemma {:induction false} WalkLeads(node: Node, target: Hash, root: Root, hops: nat, v: nat)
    requires Walk(node, target, root, hops) == Success(v)
    ensures LeadsTo(node, target, root, hops, v)
    decreases hops
  {
    var visit := VisitAncestor(node, target, root);
    if visit.GoTo? {
      WalkLeads(node, target, visit.parent, hops - 1, v);
      var roots: seq<Root> :|
        && Ancestors(node, target, roots) && roots[0] == visit.parent && |roots| <= hops - 1
        && Discloses(node, target, roots[|roots| - 1], v);
      var all := [root] + roots;
      assert Passed(node, target, root, visit.parent);
      assert Ancestors(node, target, all) && Discloses(node, target, all[|all| - 1], v);
    } else {
      assert Ancestors(node, target, [root]) && Discloses(node, target, [root][0], v);
    }
  }

  lemma {:induction false} LeadsWalk(node: Node, target: Hash, roots: seq<Root>, hops: nat, v: nat)
    requires Ancestors(node, target, roots) && |roots| <= hops && Discloses(node, target, roots[|roots| - 1], v)
    ensures Walk(node, target, roots[0], hops) == Success(v)
  {
    if |roots| > 1 {
      assert Passed(node, target, roots[0], roots[1]);
      assert forall j :: 0 <= j < |roots[1..]| ==> roots[1..][j] == roots[j + 1];
      LeadsWalk(node, target, roots[1..], hops - 1, v);
    }
  }

  /** For any node, truthful or not: v is the ceiling exactly if the checkpoint's block, or for the zero root
      the block at slot 0, was answered and carries payload number v, or is a Gloas block from whose parent at
      most 64 ancestors lead, past blocks that promised other payloads, to the one that discloses v under the
      hash its bid builds on. */
  lemma CeilingIff(node: Node, v: nat)
    ensures ExecutionCeiling(node) == Success(v) <==>
              && node.finality.Found?
              && var answer := if node.finality.value == 0 then node.genesis else node.block(node.finality.value);
                 answer.Found? &&
                 match answer.value.body
                 case NoPayload => false
                 case Payload(_, number) => v == number
                 case Bid(parentHash, _) => LeadsTo(node, parentHash, answer.value.parentRoot, 64, v)
  {
    if node.finality.Found? {
      var answer := if node.finality.value == 0 then node.genesis else node.block(node.finality.value);
      if answer.Found? && answer.value.body.Bid? {
        WalkIff(node, answer.value.body.parentHash, answer.value.parentRoot, 64, v);
      }
    }
  }

  lemma WalkIff(node: Node, target: Hash, root: Root, hops: nat, v: nat)
    ensures Walk(node, target, root, hops) == Success(v) <==> LeadsTo(node, target, root, hops, v)
  {
    hide Walk, Discloses;
    if Walk(node, target, root, hops) == Success(v) {
      WalkLeads(node, target, root, hops, v);
    }
    if roots: seq<Root> :|
      Ancestors(node, target, roots) && roots[0] == root && |roots| <= hops && Discloses(node, target, roots[|roots| - 1], v)
    {
      LeadsWalk(node, target, roots, hops, v);
    }
  }

  /** Why there is none: what the first request that was not answered was for. */
  lemma NoCeilingBecause(node: Node)
    ensures node.finality.Failed? ==> ExecutionCeiling(node) == Failure(FinalityFailed)
    ensures node.finality.Absent? ==> ExecutionCeiling(node) == Failure(NoCheckpoint)
    ensures node.finality.Found? ==>
              var answer := if node.finality.value == 0 then node.genesis else node.block(node.finality.value);
              && (answer.Failed? ==> ExecutionCeiling(node) == Failure(BlockFailed))
              && (answer.Absent? ==> ExecutionCeiling(node) == Failure(BlockAbsent))
              && (answer.Found? && answer.value.body.NoPayload? ==> ExecutionCeiling(node) == Failure(NoExecutionBlock))
  {
  }

  // ----- The walk on a canonical chain -----

  /** The node holds the blocks of entries m - 1 up to n - 1, and the number of m - 1's payload. */
  ghost predicate HoldsWalk(node: Node, chain: seq<Entry>, m: nat, n: nat)
    requires 0 < m <= n <= |chain|
  {
    && (forall i :: m - 1 <= i < n ==> node.block(chain[i].root).Found?)
    && (chain[m - 1].block.body.Bid? ==> node.envelope(chain[m - 1].root).Found?)
  }

  lemma HoldsWalkStep(node: Node, chain: seq<Entry>, m: nat, n: nat)
    requires 0 < m <= n <= |chain|
    ensures HoldsWalk(node, chain, m, n) <==>
              && node.block(chain[n - 1].root).Found?
              && (if m < n then HoldsWalk(node, chain, m, n - 1)
                  else chain[n - 1].block.body.Bid? ==> node.envelope(chain[n - 1].root).Found?)
  {
  }

  /** What the walk sees at entry n - 1: it stops with a number exactly at a revealed payload, and
      goes on only past a withheld one. */
  lemma VisitOnChain(chain: seq<Entry>, base: Base, node: Node, n: nat)
    requires Canonical(chain, base) && Truthful(node, chain) && 0 < n <= |chain|
    ensures var e := chain[n - 1];
            var v := VisitAncestor(node, Head(chain, base, n).hash, e.root);
            if !node.block(e.root).Found? || !e.Carries() then v.Stop? && v.result.Failure?
            else if e.revealed then v == Stop(RevealedNumber(node, e.root, e.block))
            else e.block.body.Bid? && v == GoTo(e.block.parentRoot)
  {
    HeadIsNearest(chain, base, n);
    var e := chain[n - 1];
    if node.block(e.root).Found? {
      assert node.block(e.root).value == e.block;
    }
  }

  /** The root the walk asks for when it stands before entry n. */
  function RootBefore(chain: seq<Entry>, n: nat): Root
    requires 0 < |chain| && n <= |chain|
  {
    if n > 0 then chain[n - 1].root else chain[0].block.parentRoot
  }

  /** One hop of the walk on a canonical chain: fail, stop at a revealed payload, or go to the parent. */
  ghost predicate OneHop(chain: seq<Entry>, base: Base, node: Node, n: nat, hops: nat)
    requires 0 < n <= |chain| && 0 < hops
  {
    var e := chain[n - 1];
    var r := Walk(node, Head(chain, base, n).hash, e.root, hops);
    if !node.block(e.root).Found? || !e.Carries() then r.Failure?
    else if e.revealed then r == RevealedNumber(node, e.root, e.block)
    else r == Walk(node, Head(chain, base, n - 1).hash, RootBefore(chain, n - 1), hops - 1)
  }

  lemma WalkOneHop(chain: seq<Entry>, base: Base, node: Node, n: nat, hops: nat)
    requires Canonical(chain, base) && Truthful(node, chain) && 0 < n <= |chain| && 0 < hops
    ensures OneHop(chain, base, node, n, hops)
  {
    VisitOnChain(chain, base, node, n);
    assert LinkedAt(chain, n - 1);
  }

  /** The walk back from entry n, from its single hops. */
  lemma {:induction false} WalkByHops(chain: seq<Entry>, base: Base, node: Node, n: nat, hops: nat)
    requires Truthful(node, chain) && ForkOrdered(chain) && 0 < |chain| && n <= |chain|
    requires forall k: nat, h: nat {:trigger OneHop(chain, base, node, k, h)} ::
               0 < k <= n && 0 < h ==> OneHop(chain, base, node, k, h)
    ensures var m := Nearest(chain, n);
            var r := Walk(node, Head(chain, base, n).hash, RootBefore(chain, n), hops);
            && (r.Success? <==> m > 0 && n - m < hops && HoldsWalk(node, chain, m, n))
            && (r.Success? ==> r.value == chain[m - 1].number)
    decreases n
  {
    if hops > 0 && n > 0 {
      assert OneHop(chain, base, node, n, hops);
      var m := Nearest(chain, n);
      if m > 0 {
        HoldsWalkStep(node, chain, m, n);
      }
      if !chain[n - 1].revealed {
        WalkByHops(chain, base, node, n - 1, hops - 1);
      }
    }
  }

  /** The walk back from entry n succeeds exactly when some earlier payload was revealed, the nearest
      one is within the hop limit and the node holds every block back to it; it then returns that
      payload's number. */
  lemma WalkFindsNearest(chain: seq<Entry>, base: Base, node: Node, n: nat, hops: nat)
    requires Canonical(chain, base) && Truthful(node, chain)
    requires 0 < |chain| && n <= |chain|
    ensures var m := Nearest(chain, n);
            var r := Walk(node, Head(chain, base, n).hash, RootBefore(chain, n), hops);
            && (r.Success? <==> m > 0 && n - m < hops && HoldsWalk(node, chain, m, n))
            && (r.Success? ==> r.value == chain[m - 1].number)
  {
    forall k: nat, h: nat | 0 < k <= n && 0 < h
      ensures OneHop(chain, base, node, k, h)
    {
      WalkOneHop(chain, base, node, k, h);
    }
    WalkByHops(chain, base, node, n, hops);
  }

  // ----- The ceiling on a canonical chain -----

  /** The execution block number that finality of entry i makes final: before Gloas the block's own
      payload, from Gloas on the payload it builds on. */
  function FinalNumber(chain: seq<Entry>, base: Base, i: nat): nat
    requires i < |chain|
  {
    if chain[i].block.body.Bid? then Head(chain, base, i).number else Head(chain, base, i + 1).number
  }

  /** The finalized checkpoint names entry i; the zero root stands for the genesis entry. */
  ghost predicate FinalizedAt(node: Node, chain: seq<Entry>, i: nat)
    requires i < |chain|
  {
    && node.finality.Found?
    && (node.finality.value == ZERO_ROOT ==>
          i == 0 && (node.genesis.Found? ==> node.genesis.value == chain[0].block))
    && (node.finality.value != ZERO_ROOT ==> node.finality.value == chain[i].root)
  }

  /** A ceiling is only ever the execution block that finality of the checkpoint makes final. */
  lemma CeilingIsFinal(chain: seq<Entry>, base: Base, node: Node, i: nat)
    requires Canonical(chain, base) && Truthful(node, chain)
    requires i < |chain| && FinalizedAt(node, chain, i)
    ensures ExecutionCeiling(node).Success? ==> ExecutionCeiling(node).value == FinalNumber(chain, base, i)
  {
    HeadIsNearest(chain, base, i);
    WalkFindsNearest(chain, base, node, i, MAX_PAYLOAD_PARENT_HOPS);
    assert node.block(chain[i].root).Found? ==> node.block(chain[i].root).value == chain[i].block;
    assert BuildsOnHeadAt(chain, base, i);
    assert LinkedAt(chain, i);
  }

  /** The node answers the lookup made for the finalized checkpoint: by its root, or at slot 0 for the zero root. */
  predicate CheckpointAnswered(node: Node)
    requires node.finality.Found?
  {
    if node.finality.value == 0 then node.genesis.Found? else node.block(node.finality.value).Found?
  }

  /** A finalized block that carries its payload gives its number exactly if the node answers the lookup made
      for it; a block from before the merge gives none. */
  lemma PayloadCeilingFoundIff(chain: seq<Entry>, base: Base, node: Node, i: nat)
    requires Canonical(chain, base) && Truthful(node, chain)
    requires i < |chain| && FinalizedAt(node, chain, i) && !chain[i].block.body.Bid?
    ensures ExecutionCeiling(node).Success? <==> chain[i].block.body.Payload? && CheckpointAnswered(node)
    ensures ExecutionCeiling(node).Success? ==> ExecutionCeiling(node).value == chain[i].number
  {
    assert node.block(chain[i].root).Found? ==> node.block(chain[i].root).value == chain[i].block;
  }

  /** A finalized Gloas block gives a ceiling exactly if the node answers the lookup made for it, the nearest
      revealed payload before it is at most 64 blocks back, and the node holds every block back to it and its
      number; the zero root gives none, as nothing comes before the genesis block. */
  lemma GloasCeilingFoundIff(chain: seq<Entry>, base: Base, node: Node, i: nat)
    requires Canonical(chain, base) && Truthful(node, chain)
    requires i < |chain| && FinalizedAt(node, chain, i) && chain[i].block.body.Bid?
    ensures var m := Nearest(chain, i);
            ExecutionCeiling(node).Success? <==>
              CheckpointAnswered(node) && m > 0 && i - m < 64 && HoldsWalk(node, chain, m, i)
    ensures node.finality.value == 0 ==> !ExecutionCeiling(node).Success?
  {
    WalkFindsNearest(chain, base, node, i, MAX_PAYLOAD_PARENT_HOPS);
    assert node.block(chain[i].root).Found? ==> node.block(chain[i].root).value == chain[i].block;
    assert BuildsOnHeadAt(chain, base, i);
    assert LinkedAt(chain, i);
  }

  /** Finality of a descendant never lowers the ceiling, on either side of the Gloas fork and across it. */
  lemma FinalNumberMonotone(chain: seq<Entry>, base: Base, i: nat, j: nat)
    requires Canonical(chain, base) && i <= j < |chain|
    ensures FinalNumber(chain, base, i) <= FinalNumber(chain, base, j)
  {
    if i < j {
      HeadNumberMonotone(chain, base, i, i + 1);
      HeadNumberMonotone(chain, base, i + 1, j);
      HeadNumberMonotone(chain, base, j, j + 1);
    }
  }

  /** Two successful readings of the ceiling, the second for a checkpoint at or after the first,
      whatever the node held each time, never go down. */
  lemma CeilingNeverLowered(chain: seq<Entry>, base: Base, first: Node, second: Node, i: nat, j: nat)
    requires Canonical(chain, base) && Truthful(first, chain) && Truthful(second, chain)
    requires i <= j < |chain| && FinalizedAt(first, chain, i) && FinalizedAt(second, chain, j)
    requires ExecutionCeiling(first).Success? && ExecutionCeiling(second).Success?
    ensures ExecutionCeiling(first).value <= ExecutionCeiling(second).value
  {
    CeilingIsFinal(chain, base, first, i);
    CeilingIsFinal(chain, base, second, j);
    FinalNumberMonotone(chain, base, i, j);
  }
}
