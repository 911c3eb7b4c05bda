/** How the Confirmer's writes and its queries fit together: what one of them does to a
    transaction decides which of the others will find it. */
module ConfirmerLaws {
  import opened Options
  import opened TxTypes
  import opened ConfirmerProtocol
  import opened ConfirmerRows
  import opened ConfirmerReceipts
  import opened ConfirmerReorg
  import opened Confirmer
  import opened BroadcasterProtocol

  // ------------------------------------------------------- after an attempt was sent

  /** An unconfirmed transaction is resubmitted for want of funds if that was the answer, and
      otherwise only if another of its attempts ran out of funds before. */
  lemma ResubmittedIffOutOfFunds(row: Tx, d': Db, id: int, key: Addr, first: int, last: Attempt, code: SendCode)
    requires Settles(code) && InState(d', key, Unconfirmed, id) && AnsweredRow(row, d'.txs[id], first, last, code)
    ensures id in InsufficientIds(d', key) <==>
              || code.InsufficientFunds?
              || exists b :: b in row.attempts && b != first && b != last.id && row.attempts[b].state.AttemptInsufficientFunds?
  {
  }

  /** Receipts are asked for exactly about the attempts that the node took. */
  lemma AskedAboutIffTaken(row: Tx, row': Tx, first: int, last: Attempt, code: SendCode)
    requires Settles(code) && AnsweredRow(row, row', first, last, code)
    requires row.sequence.Some? && AwaitsReceipt(row)
    ensures AwaitsReceipt(row') && (MayBeMined(row', last.id) <==> code.Successful? || code.TransactionAlreadyKnown?)
    ensures forall b :: b != first && b != last.id ==> (MayBeMined(row', b) <==> MayBeMined(row, b))
  {
  }

  // ---------------------------------------------------------------- after a re-org

  /** A re-orged transaction is unconfirmed again with its old sequence and without receipts,
      and its dearest attempt is a leftover that will be stamped anew; the other attempts
      keep state, price and stamp. */
  lemma ReorgedIsLeftOver(seen: Db, d: Db, id: int, chain: seq<Block>) returns (a: int)
    requires |chain| > 0 && id in seen.txs && id in d.txs && Reorged(seen.txs[id], chain)
    requires MarkedIfReorged(seen.txs[id], d.txs[id], chain)
    ensures IsDearest(seen.txs[id], a) && Leftover(d, seen.txs[id].from, id, a)
    ensures d.txs[id].state.Unconfirmed? && d.txs[id].sequence == seen.txs[id].sequence
    ensures d.txs[id].attempts.Keys == seen.txs[id].attempts.Keys && d.txs[id].attempts[a].broadcastBefore.None?
    ensures forall b :: b in d.txs[id].attempts ==>
              d.txs[id].attempts[b].receipts == [] && d.txs[id].attempts[b].fee == seen.txs[id].attempts[b].fee
    ensures forall b :: b in d.txs[id].attempts && b != a ==>
              && d.txs[id].attempts[b].state == seen.txs[id].attempts[b].state
              && d.txs[id].attempts[b].broadcastBefore == seen.txs[id].attempts[b].broadcastBefore
    ensures !Reorged(d.txs[id], chain)
  {
    a :| IsDearest(seen.txs[id], a) && ToBeResent(seen.txs[id], d.txs[id], a);
  }

  /** Once the node took it again, its receipt is asked for again, and unless it is bumped on
      it waits for its next stamp. */
  lemma ResentAwaitsReceipt(row: Tx, marked: Tx, row': Tx, a: int, last: Attempt, code: SendCode)
    requires row.sequence.Some? && ToBeResent(row, marked, a) && AnsweredRow(marked, row', a, last, code)
    requires code.Successful? || code.TransactionAlreadyKnown?
    ensures AwaitsReceipt(row') && row'.sequence == row.sequence && MayBeMined(row', last.id)
    ensures last.id == a && last == marked.attempts[a] ==> row'.attempts[a].state.AttemptBroadcast? && row'.attempts[a].broadcastBefore.None?
  {
  }

  /** The i-th round after the marking sent the attempt of this re-orged transaction, the
      dearest, again, unless its row was deleted by then. */
  ghost predicate SentInRound(c: Confirmer, m: Marking, id: int, a: int, i: nat) {
    && i < |m.rounds| <= |c.enabledAddresses| && id in m.seen.txs
    && c.enabledAddresses[i] == m.seen.txs[id].from
    && (id in m.rounds[i].seen.txs ==>
          && IsDearest(m.seen.txs[id], a)
          && Unsent(m.rounds[i].seen.txs[id], a) && m.rounds[i].seen.txs[id].attempts[a].broadcastBefore.None?
          && c.WasSent(m.rounds[i].seen, m.rounds[i].swept, m.rounds[i].seen.txs[id].attempts[a]))
  }

  /** A head that ends without an error, and before its deadline, sends every re-orged
      transaction of an enabled key again, in the round of that key after the marking. */
  lemma ReorgedIsSentAgain(c: Confirmer, r: HeadRun, chain: seq<Block>, id: int) returns (a: int, i: nat)
    requires |chain| > 0 && c.HeadServed(r, chain) && r.errors == [] && r.ended < r.ctx.cancelAt
    requires var seen := r.log.marking.seen;
             Care(seen, id) && id in seen.txs && Reorged(seen.txs[id], chain) && seen.txs[id].from in c.enabledAddresses
    ensures SentInRound(c, r.log.marking, id, a, i)
  {
    NoErrorsIff(r.log.marking.errs);
    a, i := MarkedIsSentAgain(c, r.log.marking, r.end, chain, id);
  }

  lemma MarkedIsSentAgain(c: Confirmer, m: Marking, d: Db, chain: seq<Block>, id: int) returns (a: int, i: nat)
    requires |chain| > 0 && AllMarkedIfReorged(m.seen, m.marked, chain)
    requires c.LeftoversSent(m, d) && forall k :: 0 <= k < |m.errs| ==> m.errs[k].None?
    requires Care(m.seen, id) && id in m.seen.txs && Reorged(m.seen.txs[id], chain) && m.seen.txs[id].from in c.enabledAddresses
    ensures SentInRound(c, m, id, a, i)
  {
    var key := m.seen.txs[id].from;
    i := FirstPlace(c.enabledAddresses, key);
    c.InTurnAt(m.marked, m.errs, m.rounds, d, None, i);
    var start, found := m.rounds[i].start, m.rounds[i].seen;
    assert Care(m.marked, id);
    OthersRoundsKeepRow(c, m.marked, m.errs, m.rounds, d, i, key, id);
    if id in found.txs {
      assert Care(start, id) && id in start.txs && id in m.marked.txs;
      a := ReorgedIsLeftOver(m.seen, m.marked, id, chain);
      assert Leftover(found, key, id, a);
    } else {
      a := 0;
    }
  }

  lemma FirstPlace(s: seq<Addr>, x: Addr) returns (i: nat)
    requires x in s
    ensures i < |s| && s[i] == x && forall j :: 0 <= j < i ==> s[j] != x
  {
    i := 0;
    while s[i] != x
      invariant i < |s| && forall j :: 0 <= j < i ==> s[j] != x
      decreases |s| - i
    {
      i := i + 1;
    }
  }

  lemma {:induction false} OthersRoundsKeepRow(c: Confirmer, d: Db, errs: seq<Option<Error>>, rounds: seq<KeyRound>, d': Db,
                                               i: nat, key: Addr, id: int)
    requires |errs| == |rounds| <= |c.enabledAddresses| && i < |rounds| && c.InTurn(d, errs, rounds, d', None)
    requires Care(d, id) && (id in d.txs ==> d.txs[id].from == key) && forall j :: 0 <= j < i ==> c.enabledAddresses[j] != key
    ensures Care(rounds[i].start, id)
    ensures id in rounds[i].start.txs ==> id in d.txs && SameForUs(d.txs[id], rounds[i].start.txs[id])
    decreases i
  {
    c.InTurnAt(d, errs, rounds, d', None, i);
    if i > 0 {
      c.InTurnAt(d, errs, rounds, d', None, i - 1);
      OthersRoundsKeepRow(c, d, errs, rounds, d', i - 1, key, id);
    }
  }

  // -------------------------------------------------------------- after a receipt

  /** A transaction that got a receipt is confirmed, and a re-org check finds it by the block
      of that receipt. */
  lemma ReceiptIsFound(row: Tx, row': Tx, saved: seq<Receipt>) returns (r: Receipt)
    requires RowReceived(row, row', saved) && IsAnswered(row, saved)
    ensures row'.state.Confirmed? && r in saved
    ensures forall low, high :: low <= r.blockNumber <= high ==> ConfirmedInRange(row', low, high)
  {
    var a :| a in row.attempts && Answered(row.attempts[a].txHash, saved);
    r :| r in saved && r.txHash == row.attempts[a].txHash && r in row'.attempts[a].receipts;
    var k :| 0 <= k < |row'.attempts[a].receipts| && row'.attempts[a].receipts[k] == r;
    assert a in row'.attempts && row'.attempts[a].state.AttemptBroadcast?;
  }

  /** And it does not find one whose receipts are all from other blocks. */
  lemma OtherBlocksAreNotFound(row: Tx, low: int, high: int)
    requires forall a, k :: a in row.attempts && 0 <= k < |row.attempts[a].receipts| ==>
               !(low <= row.attempts[a].receipts[k].blockNumber <= high)
    ensures !ConfirmedInRange(row, low, high)
  {
  }

  // -------------------------------------------------------------- when bumps are due

  /** All attempts were broadcast, and the last one no later than this. */
  ghost predicate LastSentBy(tx: Tx, blockNum: int) {
    forall a :: a in tx.attempts ==> tx.attempts[a].state.AttemptBroadcast? && tx.attempts[a].broadcastBefore.Some?
                                     && tx.attempts[a].broadcastBefore.value <= blockNum
  }

  /** Without a depth, an unconfirmed transaction is due for a bump exactly when all its attempts
      are out and the latest stamp lies at least the threshold back. */
  lemma BumpIsDueFrom(d: Db, key: Addr, id: int, blockNum: int, threshold: int, n: int)
    requires InState(d, key, Unconfirmed, id) && IsLatestStamp(d.txs[id], n) && threshold != 0
    ensures id in GasBumpIds(d, key, blockNum, threshold, 0) <==>
              LastSentBy(d.txs[id], n) && n + threshold <= blockNum
  {
  }

  /** What was just stamped is due for a bump that many blocks later, and not before. */
  lemma StampedIsDueLater(d: Db, d': Db, key: Addr, id: int, stamp: int, blockNum: int, threshold: int)
    requires StampedOnly(d, d', stamp) && InState(d, key, Unconfirmed, id) && threshold > 0
    requires LastSentBy(d'.txs[id], stamp)
    requires exists a :: a in d.txs[id].attempts && d.txs[id].attempts[a].state.AttemptBroadcast? && d.txs[id].attempts[a].broadcastBefore.None?
    ensures id in GasBumpIds(d', key, blockNum, threshold, 0) <==> stamp + threshold <= blockNum
  {
  }

  /** Those that are due with a depth are the first of those that would be due without it. */
  lemma FirstOnesAreDue(d: Db, key: Addr, blockNum: int, threshold: int, depth: int, id: int, j: int)
    requires id in GasBumpIds(d, key, blockNum, threshold, depth) && j in GasBumpIds(d, key, blockNum, threshold, 0)
    requires d.txs[j].sequence.Some? && d.txs[id].sequence.Some? && d.txs[j].sequence.value <= d.txs[id].sequence.value
    ensures j in GasBumpIds(d, key, blockNum, threshold, depth)
  {
    SubsetSize(LowerUnconfirmed(d, key, j), LowerUnconfirmed(d, key, id));
  }

  /** With a depth, no more transactions than that are due at a time. */
  lemma AtMostDepthAreDue(d: Db, key: Addr, blockNum: int, threshold: int, depth: int)
    requires Inv(d) && depth > 0
    ensures |GasBumpIds(d, key, blockNum, threshold, depth)| <= depth
  {
    var due := GasBumpIds(d, key, blockNum, threshold, depth);
    if exists id :: id in due {
      var last := HighestExists(d, due);
      forall id | id in due - {last}
        ensures id in LowerUnconfirmed(d, key, last)
      {
        assert RowOk(d, id) && RowOk(d, last);
        assert d.txs[id].sequence == d.txs[last].sequence ==> id == last;
      }
      SubsetSize(due - {last}, LowerUnconfirmed(d, key, last));
      assert due == (due - {last}) + {last};
    }
  }

  lemma {:induction false} HighestExists(d: Db, ids: set<int>) returns (last: int)
    requires exists id :: id in ids
    requires forall id :: id in ids ==> id in d.txs && (Inv(d) ==> RowOk(d, id)) && d.txs[id].sequence.Some?
    ensures last in ids && forall id :: id in ids ==> d.txs[id].sequence.value <= d.txs[last].sequence.value
    decreases ids
  {
    last :| last in ids;
    var rest := ids - {last};
    if exists id :: id in rest {
      var other := HighestExists(d, rest);
      if d.txs[last].sequence.value < d.txs[other].sequence.value {
        last := other;
      }
    } else {
      forall id | id in ids
        ensures id == last
      {
        assert id !in rest;
      }
    }
  }
}
