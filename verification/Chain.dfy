/**
 A canonical beacon chain under EIP-7732, and what its consistency rules imply.

 A chain is a sequence of entries in slot order.  From Gloas on a block carries only a bid, which
 promises a payload hash and names the payload it builds on; whether the promised payload entered
 the execution chain is a fact about the chain (`revealed`), not about the block.
 */
module Chain {

  type Slot = nat
  type Root = nat
  type Hash = nat

  datatype Body =
    | NoPayload
    | Payload(hash: Hash, number: nat)
    | Bid(parentHash: Hash, blockHash: Hash)

  datatype Block = Block(slot: Slot, parentRoot: Root, body: Body)

  /** One canonical block: its root, the number of the payload it carries or promises, and whether
      that payload is part of the execution chain. */
  datatype Entry = Entry(root: Root, block: Block, number: nat, revealed: bool) {
    predicate Carries() { !block.body.NoPayload? }

    /** The payload hash a block carries, or promises in its bid. */
    function PayloadHash(): Hash
      requires Carries()
    {
      if block.body.Payload? then block.body.hash else block.body.blockHash
    }
  }

  /** The execution head before the first payload of the chain. */
  datatype Base = Base(hash: Hash, number: nat)

  /** The execution head after the first n entries: EIP-7732's state.latest_block_hash. */
  function Head(chain: seq<Entry>, base: Base, n: nat): Base
    requires n <= |chain|
  {
    if n == 0 then base
    else
      var e := chain[n - 1];
      if e.revealed && e.Carries() then Base(e.PayloadHash(), e.number)
      else Head(chain, base, n - 1)
  }

  /** The position one past the nearest revealed payload among the first n entries, 0 for none. */
  function Nearest(chain: seq<Entry>, n: nat): (m: nat)
    requires n <= |chain|
    ensures m <= n
    ensures m > 0 ==> chain[m - 1].revealed
    ensures forall k :: m <= k < n ==> !chain[k].revealed
  {
    if n == 0 then 0
    else if chain[n - 1].revealed then n
    else Nearest(chain, n - 1)
  }

  /** Entry i names its predecessor's root; the first entry's parent is no entry of the chain. */
  ghost predicate LinkedAt(chain: seq<Entry>, i: nat)
    requires i < |chain|
  {
    if i == 0 then forall j :: 0 <= j < |chain| ==> chain[j].root != chain[0].block.parentRoot
    else chain[i].block.parentRoot == chain[i - 1].root
  }

  /** Blocks are in slot order, have distinct roots, and each names its predecessor's root. */
  ghost predicate Linked(chain: seq<Entry>) {
    && (forall i, j :: 0 <= i < j < |chain| ==> chain[i].block.slot < chain[j].block.slot)
    && (forall i, j :: 0 <= i < j < |chain| ==> chain[i].root != chain[j].root)
    && (forall i: nat {:trigger LinkedAt(chain, i)} :: i < |chain| ==> LinkedAt(chain, i))
  }

  /** Forks never go back, and a payload inside a block is always part of the execution chain. */
  ghost predicate ForkOrdered(chain: seq<Entry>) {
    && (forall i :: 0 <= i < |chain| && chain[i].block.body.NoPayload? ==> !chain[i].revealed)
    && (forall i :: 0 <= i < |chain| && chain[i].block.body.Payload? ==>
          chain[i].revealed && chain[i].number == chain[i].block.body.number)
    && (forall i, j :: 0 <= i < j < |chain| && chain[i].Carries() ==> chain[j].Carries())
    && (forall i, j :: 0 <= i < j < |chain| && chain[i].block.body.Bid? ==> chain[j].block.body.Bid?)
  }

  /** No two payloads share a hash, and none has the hash of the initial head. */
  ghost predicate DistinctPayloads(chain: seq<Entry>, base: Base) {
    && (forall i :: 0 <= i < |chain| && chain[i].Carries() ==> chain[i].PayloadHash() != base.hash)
    && (forall i, j :: 0 <= i < j < |chain| && chain[i].Carries() && chain[j].Carries() ==>
          chain[i].PayloadHash() != chain[j].PayloadHash())
  }

  /** Entry i's payload builds on the execution head: its bid names that head's hash, and payload
      numbers count up by one. */
  ghost predicate BuildsOnHeadAt(chain: seq<Entry>, base: Base, i: nat)
    requires i < |chain|
  {
    chain[i].Carries() ==>
      && chain[i].number == Head(chain, base, i).number + 1
      && (chain[i].block.body.Bid? ==> chain[i].block.body.parentHash == Head(chain, base, i).hash)
  }

  ghost predicate BuildsOnHead(chain: seq<Entry>, base: Base) {
    forall i: nat {:trigger BuildsOnHeadAt(chain, base, i)} :: i < |chain| ==> BuildsOnHeadAt(chain, base, i)
  }

  ghost predicate Canonical(chain: seq<Entry>, base: Base) {
    Linked(chain) && ForkOrdered(chain) && DistinctPayloads(chain, base) && BuildsOnHead(chain, base)
  }

  /** The head after n entries is the nearest revealed payload. */
  lemma {:induction false} HeadIsNearest(chain: seq<Entry>, base: Base, n: nat)
    requires n <= |chain| && ForkOrdered(chain)
    ensures var m := Nearest(chain, n);
            Head(chain, base, n) ==
            if m == 0 then base else Base(chain[m - 1].PayloadHash(), chain[m - 1].number)
  {
    if n > 0 && !chain[n - 1].revealed {
      HeadIsNearest(chain, base, n - 1);
    }
  }

  /** The execution head never moves back. */
  lemma {:induction false} HeadNumberMonotone(chain: seq<Entry>, base: Base, m: nat, n: nat)
    requires m <= n <= |chain| && BuildsOnHead(chain, base)
    ensures Head(chain, base, m).number <= Head(chain, base, n).number
  {
    if m < n {
      assert BuildsOnHeadAt(chain, base, n - 1);
      HeadNumberMonotone(chain, base, m, n - 1);
    }
  }

  /** The chain has a block at the slot. */
  predicate HasBlockAt(chain: seq<Entry>, slot: Slot) {
    exists i :: 0 <= i < |chain| && chain[i].block.slot == slot
  }

  /** The execution chain has the payload with the hash. */
  ghost predicate InExecutionChain(chain: seq<Entry>, hash: Hash) {
    exists i :: 0 <= i < |chain| && chain[i].revealed && chain[i].Carries() && chain[i].PayloadHash() == hash
  }

  /** A promised payload entered the execution chain exactly when its block's payload was revealed. */
  lemma RevealedIffInExecutionChain(chain: seq<Entry>, base: Base, i: nat)
    requires Canonical(chain, base) && i < |chain| && chain[i].Carries()
    ensures chain[i].revealed <==> InExecutionChain(chain, chain[i].PayloadHash())
  {
    if InExecutionChain(chain, chain[i].PayloadHash()) {
      var j :| 0 <= j < |chain| && chain[j].revealed && chain[j].Carries() && chain[j].PayloadHash() == chain[i].PayloadHash();
      assert j == i;
    }
  }
}
