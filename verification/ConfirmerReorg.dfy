/** Re-org detection: is any receipt of a transaction on the chain that ends at the
    new head (hasReceiptInLongestChain, common/txmgr/confirmer.go)? */
module ConfirmerReorg {
  import opened TxTypes
  import opened ConfirmerProtocol
  import opened ConfirmerRows
  import opened AttemptListing
  import opened RebroadcastQueue

  datatype Block = Block(number: int, hash: int, parentHash: int)

  ghost predicate Matches(r: Receipt, b: Block) { r.blockHash == b.hash && r.blockNumber == b.number }

  ghost predicate ReceiptOnChain(attempts: seq<Attempt>, chain: seq<Block>) {
    exists a, r, b :: a in attempts && r in a.receipts && b in chain && Matches(r, b)
  }

  method HasReceiptInLongestChain(attempts: seq<Attempt>, chain: seq<Block>) returns (found: bool)
    requires |chain| > 0
    ensures found <==> ReceiptOnChain(attempts, chain)
  {
    var at := 0;
    while true
      invariant at < |chain|
      invariant !ReceiptOnChain(attempts, chain[..at])
      decreases |chain| - at
    {
      var head := chain[at];
      for i := 0 to |attempts|
        invariant forall r, j :: 0 <= j < i && r in attempts[j].receipts ==> !Matches(r, head)
      {
        for k := 0 to |attempts[i].receipts|
          invariant forall r :: r in attempts[i].receipts[..k] ==> !Matches(r, head)
        {
          var receipt := attempts[i].receipts[k];
          if receipt.blockHash == head.hash && receipt.blockNumber == head.number {
            assert Matches(receipt, head);
            return true;
          }
        }
      }
      assert chain[..at + 1] == chain[..at] + [head];
      assert !ReceiptOnChain(attempts, chain[..at + 1]) by {
        forall a, r, b | a in attempts && r in a.receipts && b in chain[..at + 1]
          ensures !Matches(r, b)
        {
          if b in chain[..at] {
            assert !(a in attempts && r in a.receipts && b in chain[..at] && Matches(r, b));
          }
        }
      }
      if at + 1 == |chain| {
        assert chain[..|chain|] == chain;
        return false;
      }
      at := at + 1;
    }
  }

  // ------------------------------------------------- what marking should achieve

  ghost predicate OnChain(tx: Tx, chain: seq<Block>) {
    exists a, r, b :: a in tx.attempts && r in tx.attempts[a].receipts && b in chain && Matches(r, b)
  }

  /** Confirmed in the block range of the chain, and yet by no block on it. */
  ghost predicate Reorged(tx: Tx, chain: seq<Block>)
    requires |chain| > 0
  {
    ConfirmedInRange(tx, chain[|chain| - 1].number, chain[0].number) && !OnChain(tx, chain)
  }

  /** The store refuses to mark it: it is missing its receipt, or its dearest attempt
      is not broadcast. */
  ghost predicate Unmarkable(tx: Tx) {
    !tx.state.Confirmed? || exists a :: IsDearest(tx, a) && !tx.attempts[a].state.AttemptBroadcast?
  }

  /** Exactly the re-orged transactions are marked, always with their dearest attempt. */
  ghost predicate MarkedIfReorged(row: Tx, row': Tx, chain: seq<Block>)
    requires |chain| > 0
  {
    if Reorged(row, chain) then exists a :: IsDearest(row, a) && ToBeResent(row, row', a)
    else SameForUs(row, row')
  }

  /** A re-orged transaction on which the phase gives up. */
  ghost predicate SomeRefused(seen: Db, chain: seq<Block>)
    requires |chain| > 0
  {
    exists id :: id in seen.txs && Reorged(seen.txs[id], chain) && Unmarkable(seen.txs[id])
  }

  ghost predicate AllMarkedIfReorged(seen: Db, marked: Db, chain: seq<Block>)
    requires |chain| > 0
  {
    && (forall id :: Care(seen, id) ==> Care(marked, id))
    && forall id :: Care(seen, id) && id in marked.txs ==> id in seen.txs && MarkedIfReorged(seen.txs[id], marked.txs[id], chain)
  }

  /** A phase that gave up marked only what had to be marked. */
  ghost predicate SomeMarked(seen: Db, marked: Db, chain: seq<Block>)
    requires |chain| > 0
  {
    forall id :: Care(seen, id) && id in marked.txs ==> MarkedOrKept(seen, marked, chain, id)
  }

  ghost predicate MarkedOrKept(seen: Db, marked: Db, chain: seq<Block>, id: int)
    requires |chain| > 0 && id in marked.txs
  {
    id in seen.txs && (SameForUs(seen.txs[id], marked.txs[id]) || MarkedIfReorged(seen.txs[id], marked.txs[id], chain))
  }

  /** The first i transactions of the list are dealt with, the others are as they were. */
  ghost predicate MarkedUpTo(seen: Db, d: Db, list: seq<Loaded>, i: nat, chain: seq<Block>)
    requires |chain| > 0
  {
    && i <= |list|
    && (forall k :: 0 <= k < i && Reorged(list[k].tx, chain) ==> !Unmarkable(list[k].tx))
    && (forall id :: Care(seen, id) ==> Care(d, id))
    && (forall id :: Care(seen, id) && id in d.txs ==> DealtWith(seen, d, list, i, chain, id))
  }

  ghost predicate DealtWith(seen: Db, d: Db, list: seq<Loaded>, i: nat, chain: seq<Block>, id: int)
    requires |chain| > 0 && id in d.txs && i <= |list|
  {
    id in seen.txs
    && if Among(list, i, id) then MarkedIfReorged(seen.txs[id], d.txs[id], chain) else SameForUs(seen.txs[id], d.txs[id])
  }

  ghost predicate Among(list: seq<Loaded>, i: nat, id: int)
    requires i <= |list|
  {
    exists k :: 0 <= k < i && list[k].tx.id == id
  }

  lemma NoneMarkedYet(seen: Db, list: seq<Loaded>, chain: seq<Block>)
    requires |chain| > 0
    ensures MarkedUpTo(seen, seen, list, 0, chain)
  {
  }

  /** One more transaction of the list is dealt with: left alone if it is still on the
      chain, and otherwise marked with its first attempt. */
  lemma OneMoreMarked(seen: Db, d: Db, d': Db, list: seq<Loaded>, i: nat, chain: seq<Block>)
    requires |chain| > 0 && i < |list| && DistinctIds(list) && (Reorged(list[i].tx, chain) ==> !Unmarkable(list[i].tx))
    requires MarkedUpTo(seen, d, list, i, chain) && Framed(d, d', {list[i].tx.id})
    requires Care(seen, list[i].tx.id)
    requires list[i].tx.id in d'.txs && list[i].tx.id in d.txs && list[i].tx.id in seen.txs ==>
               (SameForUs(seen.txs[list[i].tx.id], d.txs[list[i].tx.id])
                ==> MarkedIfReorged(seen.txs[list[i].tx.id], d'.txs[list[i].tx.id], chain))
    ensures MarkedUpTo(seen, d', list, i + 1, chain)
  {
  }

  /** When the whole list is dealt with, so is the whole table: a transaction that is
      not on the list was not confirmed in the range. */
  lemma AllMarked(seen: Db, d: Db, list: seq<Loaded>, chain: seq<Block>)
    requires |chain| > 0 && MarkedUpTo(seen, d, list, |list|, chain)
    requires forall id :: id in ConfirmedInRangeIds(seen, chain[|chain| - 1].number, chain[0].number) <==> HasId(list, id)
    requires forall k :: 0 <= k < |list| ==> list[k].tx.id in seen.txs && list[k].tx == seen.txs[list[k].tx.id]
    ensures AllMarkedIfReorged(seen, d, chain) && !SomeRefused(seen, chain)
  {
    forall id | id in seen.txs && Reorged(seen.txs[id], chain)
      ensures !Unmarkable(seen.txs[id])
    {
      assert id in ConfirmedInRangeIds(seen, chain[|chain| - 1].number, chain[0].number);
      assert HasId(list, id);
      var k :| 0 <= k < |list| && list[k].tx.id == id;
      assert Reorged(list[k].tx, chain);
    }
    forall id | Care(seen, id) && id in d.txs
      ensures id in seen.txs && MarkedIfReorged(seen.txs[id], d.txs[id], chain)
    {
      assert DealtWith(seen, d, list, |list|, chain, id);
      assert HasId(list, id) <==> Among(list, |list|, id);
      if !HasId(list, id) {
        assert id !in ConfirmedInRangeIds(seen, chain[|chain| - 1].number, chain[0].number);
      }
    }
  }

  lemma UpToIsSome(seen: Db, d: Db, d': Db, list: seq<Loaded>, i: nat, chain: seq<Block>)
    requires |chain| > 0 && MarkedUpTo(seen, d, list, i, chain) && Framed(d, d', {})
    ensures SomeMarked(seen, d', chain)
  {
  }
}
