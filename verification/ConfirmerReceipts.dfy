/** Which attempts the Confirmer fetches receipts for, in which batches, and which
    answers it keeps (common/txmgr/confirmer.go). */
module ConfirmerReceipts {
  import opened Options
  import opened TxTypes
  import opened ConfirmerProtocol
  import opened ConfirmerRows

  /** An attempt with the sequence of its preloaded transaction. */
  datatype Pending = Pending(attempt: Attempt, from: Addr, sequence: int)

  ghost predicate BySequence(s: seq<Pending>) {
    forall i, j :: 0 <= i < j < |s| ==> s[i].sequence <= s[j].sequence
  }

  /** The order of the receipt query: by sequence, the dearest first. */
  predicate NotAfter(p: Pending, q: Pending) {
    p.sequence < q.sequence || (p.sequence == q.sequence && q.attempt.fee <= p.attempt.fee)
  }

  ghost predicate DearestFirst(s: seq<Pending>) {
    forall i, j :: 0 <= i < j < |s| ==> NotAfter(s[i], s[j])
  }

  /** The longest prefix whose sequences do not exceed the mined count. */
  method SeparateLikelyConfirmedAttempts(attempts: seq<Pending>, minedSequence: int) returns (likely: seq<Pending>)
    ensures likely <= attempts
    ensures forall i :: 0 <= i < |likely| ==> likely[i].sequence <= minedSequence
    ensures |likely| < |attempts| ==> minedSequence < attempts[|likely|].sequence
    ensures BySequence(attempts) ==> forall p :: p in attempts ==> (p in likely <==> p.sequence <= minedSequence)
  {
    likely := attempts;
    for i := 0 to |attempts|
      invariant likely == attempts
      invariant forall k :: 0 <= k < i ==> attempts[k].sequence <= minedSequence
    {
      if attempts[i].sequence > minedSequence {
        likely := attempts[..i];
        break;
      }
    }
  }

  /** The source's comment expects the first three of five attempts when three
      transactions are mined; the comparison keeps a fourth. */
  method CommentExampleKeepsOneMore(attempts: seq<Pending>) returns (likely: seq<Pending>)
    requires |attempts| == 5 && forall i :: 0 <= i < 5 ==> attempts[i].sequence == i
    ensures likely == attempts[..4]
  {
    likely := SeparateLikelyConfirmedAttempts(attempts, 3);
    assert attempts[3] in attempts && attempts[4] in attempts;
    var k :| 0 <= k < |likely| && likely[k] == attempts[3];
    assert attempts[k].sequence == k;
    assert attempts[4] !in likely;
  }

  // ------------------------------------------------------------------ batches

  /** In a batch that starts at i, a multiple of the batch size, attempt number n is the
      (n % size)-th of batch n / size. */
  lemma PlaceInBatch(i: nat, n: nat, size: nat)
    requires size > 0 && i % size == 0 && i <= n < i + size
    ensures n / size == i / size && n % size == n - i
  {
    QuotientIsUnique(n, size, i / size, n - i);
  }

  lemma NextBatchStart(i: nat, size: nat)
    requires size > 0 && i % size == 0
    ensures (i + size) % size == 0 && (i + size) / size == i / size + 1
  {
    QuotientIsUnique(i + size, size, i / size + 1, 0);
  }

  lemma QuotientIsUnique(n: nat, size: nat, q: nat, r: nat)
    requires size > 0 && n == size * q + r && r < size
    ensures n / size == q && n % size == r
  {
    var d := n / size - q;
    assert size * d == r - n % size;
    MultipleIsFar(size, d);
  }

  lemma MultipleIsFar(size: nat, d: int)
    requires size > 0
    ensures (d > 0 ==> size * d >= size) && (d < 0 ==> size * d <= 0 - size)
  {
  }

  // ------------------------------------------------------------------ answers

  datatype RpcReceipt =
    | NilReceipt
    | ZeroReceipt
    | UnminedReceipt
    | MinedReceipt(txHash: int, blockHash: int, blockNumber: Option<int>)

  datatype ReceiptReply = ReceiptReply(failed: bool, receipt: RpcReceipt)

  predicate Keep(attempt: Attempt, reply: ReceiptReply) {
    && !reply.failed
    && reply.receipt.MinedReceipt?
    && reply.receipt.txHash == attempt.txHash
    && reply.receipt.blockNumber.Some?
  }

  predicate IsKept(attempt: Attempt, reply: ReceiptReply, receipt: Receipt) {
    && Keep(attempt, reply)
    && receipt == Receipt(attempt.txHash, reply.receipt.blockHash, reply.receipt.blockNumber.value)
  }

  function KeptAnswer(attempt: Attempt, reply: ReceiptReply): seq<Receipt> {
    if Keep(attempt, reply) then [Receipt(attempt.txHash, reply.receipt.blockHash, reply.receipt.blockNumber.value)] else []
  }

  /** What is kept of the first i answers, in order. */
  function Kept(attempts: seq<Pending>, replies: seq<ReceiptReply>, i: nat): seq<Receipt>
    requires i <= |replies| == |attempts|
  {
    if i == 0 then [] else Kept(attempts, replies, i - 1) + KeptAnswer(attempts[i - 1].attempt, replies[i - 1])
  }

  /** Exactly the answers that pass every check are kept: nothing else is, and none is lost. */
  lemma {:induction false} KeptIsAnswer(attempts: seq<Pending>, replies: seq<ReceiptReply>, i: nat, r: Receipt)
    requires i <= |replies| == |attempts| && r in Kept(attempts, replies, i)
    ensures exists k :: 0 <= k < i && IsKept(attempts[k].attempt, replies[k], r)
    decreases i
  {
    if r in Kept(attempts, replies, i - 1) {
      KeptIsAnswer(attempts, replies, i - 1, r);
    } else {
      assert IsKept(attempts[i - 1].attempt, replies[i - 1], r);
    }
  }

  lemma {:induction false} AnswerIsKept(attempts: seq<Pending>, replies: seq<ReceiptReply>, i: nat, k: nat, r: Receipt)
    requires k < i <= |replies| == |attempts| && IsKept(attempts[k].attempt, replies[k], r)
    ensures r in Kept(attempts, replies, i)
    decreases i
  {
    if k < i - 1 {
      AnswerIsKept(attempts, replies, i - 1, k, r);
    } else {
      assert r in KeptAnswer(attempts[k].attempt, replies[k]);
    }
  }

  /** The batch lies at i, and so do the answers about it. */
  ghost predicate LiesAt(attempts: seq<Pending>, replies: seq<ReceiptReply>, i: nat, batch: seq<Pending>, answers: seq<ReceiptReply>) {
    && |replies| == |attempts| && |batch| == |answers| && i + |batch| <= |attempts|
    && forall n :: 0 <= n < |batch| ==> batch[n] == attempts[i + n] && answers[n] == replies[i + n]
  }

  /** What is kept of a batch is what is kept of its part of the whole. */
  lemma {:induction false} KeptOfBatch(attempts: seq<Pending>, replies: seq<ReceiptReply>, i: nat,
                                       batch: seq<Pending>, answers: seq<ReceiptReply>, k: nat)
    requires LiesAt(attempts, replies, i, batch, answers) && k <= |batch|
    ensures Kept(attempts, replies, i + k) == Kept(attempts, replies, i) + Kept(batch, answers, k)
    decreases k
  {
    if k > 0 {
      KeptOfBatch(attempts, replies, i, batch, answers, k - 1);
      assert batch[k - 1] == attempts[i + (k - 1)] && answers[k - 1] == replies[i + (k - 1)];
    }
  }

  lemma {:induction false} KeptGrows(attempts: seq<Pending>, replies: seq<ReceiptReply>, i: nat, j: nat)
    requires i <= j <= |replies| == |attempts|
    ensures Kept(attempts, replies, i) <= Kept(attempts, replies, j)
    decreases j
  {
    if i < j {
      KeptGrows(attempts, replies, i, j - 1);
    }
  }

  /** The loop of batchFetchReceipts over the answers, one check after the other. */
  method KeepReceipts(attempts: seq<Pending>, replies: seq<ReceiptReply>) returns (receipts: seq<Receipt>)
    requires |replies| == |attempts|
    ensures receipts == Kept(attempts, replies, |replies|)
  {
    receipts := [];
    for i := 0 to |replies|
      invariant receipts == Kept(attempts, replies, i)
    {
      var attempt, reply := attempts[i].attempt, replies[i];
      if reply.failed {
        continue;
      }
      match reply.receipt
      case NilReceipt =>
      case ZeroReceipt =>
      case UnminedReceipt =>
      case MinedReceipt(txHash, blockHash, blockNumber) =>
        if txHash != attempt.txHash {
          continue;
        }
        if blockNumber.None? {
          continue;
        }
        receipts := receipts + [Receipt(txHash, blockHash, blockNumber.value)];
    }
  }

  // --------------------------------------------------- what fetching should achieve

  /** Exactly the transactions with a saved receipt became confirmed; the Confirmer
      wrote no other. */
  ghost predicate ReceiptsSaved(d: Db, d': Db, saved: seq<Receipt>) {
    && (forall id :: Care(d, id) ==> Care(d', id))
    && forall id :: Care(d, id) && id in d'.txs ==> id in d.txs && RowReceived(d.txs[id], d'.txs[id], saved)
  }

  /** A transaction that got a receipt is confirmed, and any other is as it was. */
  ghost predicate RowReceived(row: Tx, row': Tx, saved: seq<Receipt>) {
    && row'.from == row.from && row'.sequence == row.sequence
    && row'.attempts.Keys == row.attempts.Keys
    && (forall a :: a in row.attempts ==> AttemptReceived(row.attempts[a], row'.attempts[a], saved))
    && row'.state == if IsAnswered(row, saved) then Confirmed else row.state
  }

  ghost predicate IsAnswered(row: Tx, saved: seq<Receipt>) {
    exists a :: a in row.attempts && Answered(row.attempts[a].txHash, saved)
  }

  /** An attempt that got a receipt was broadcast, at that receipt's block at the latest, and
      has it, besides those it had from other blocks. */
  ghost predicate AttemptReceived(a: Attempt, a': Attempt, saved: seq<Receipt>) {
    if !Answered(a.txHash, saved) then a' == a
    else
      && a' == a.(state := AttemptBroadcast, receipts := a'.receipts, broadcastBefore := a'.broadcastBefore)
      && (exists r :: r in saved && r.txHash == a.txHash && r in a'.receipts)
      && (forall r :: r in a'.receipts ==> r in a.receipts || (r in saved && r.txHash == a.txHash))
      && (forall r :: r in a.receipts ==> exists r' :: r' in a'.receipts && r'.blockHash == r.blockHash)
      && (if a.broadcastBefore.Some? then a'.broadcastBefore == a.broadcastBefore
          else exists r :: r in saved && r.txHash == a.txHash && a'.broadcastBefore == Some(r.blockNumber))
  }

  lemma ReceivedAsAnswered(a: Attempt, receipts: seq<Receipt>)
    ensures AttemptReceived(a, WithReceipt(a, receipts), receipts)
  {
    ReceiptForIsFound(a.txHash, receipts);
    if ReceiptFor(a.txHash, receipts).Some? {
      UpsertReplacesOne(a.receipts, ReceiptFor(a.txHash, receipts).value);
    }
  }

  lemma ReceivedIsRowReceived(row: Tx, receipts: seq<Receipt>)
    requires WithConfirmer(row.state)
    ensures RowReceived(row, ReceivedRow(row, receipts), receipts)
  {
    forall a | a in row.attempts
      ensures AttemptReceived(row.attempts[a], WithReceipt(row.attempts[a], receipts), receipts)
      ensures ReceiptFor(row.attempts[a].txHash, receipts).Some? <==> Answered(row.attempts[a].txHash, receipts)
    {
      ReceivedAsAnswered(row.attempts[a], receipts);
      ReceiptForIsFound(row.attempts[a].txHash, receipts);
    }
  }

  lemma AnsweredAppend(txHash: int, s: seq<Receipt>, t: seq<Receipt>)
    ensures Answered(txHash, s + t) <==> Answered(txHash, s) || Answered(txHash, t)
  {
  }

  lemma AttemptReceivedTwice(a: Attempt, b: Attempt, c: Attempt, s: seq<Receipt>, t: seq<Receipt>)
    requires AttemptReceived(a, b, s) && AttemptReceived(b, c, t)
    ensures AttemptReceived(a, c, s + t)
  {
  }

  lemma RowReceivedTwice(a: Tx, b: Tx, c: Tx, s: seq<Receipt>, t: seq<Receipt>)
    requires RowReceived(a, b, s) && RowReceived(b, c, t)
    ensures RowReceived(a, c, s + t)
  {
    forall k | k in a.attempts
      ensures AttemptReceived(a.attempts[k], c.attempts[k], s + t)
      ensures Answered(a.attempts[k].txHash, s + t) <==> Answered(a.attempts[k].txHash, s) || Answered(b.attempts[k].txHash, t)
    {
      AttemptReceivedTwice(a.attempts[k], b.attempts[k], c.attempts[k], s, t);
      AnsweredAppend(a.attempts[k].txHash, s, t);
    }
  }

  lemma ReceiptsSavedTwice(a: Db, b: Db, c: Db, s: seq<Receipt>, t: seq<Receipt>)
    requires ReceiptsSaved(a, b, s) && ReceiptsSaved(b, c, t)
    ensures ReceiptsSaved(a, c, s + t)
  {
    forall id | Care(a, id) && id in c.txs
      ensures id in a.txs && RowReceived(a.txs[id], c.txs[id], s + t)
    {
      assert Care(b, id) && id in b.txs;
      RowReceivedTwice(a.txs[id], b.txs[id], c.txs[id], s, t);
    }
  }

  lemma FramedSavesNothing(d: Db, d': Db)
    requires Framed(d, d', {})
    ensures ReceiptsSaved(d, d', [])
  {
  }

  lemma ReceivedIsSaved(d: Db, seen: Db, receipts: seq<Receipt>)
    requires Framed(d, seen, {})
    ensures ReceiptsSaved(d, seen.(txs := map id | id in seen.txs :: ReceivedRow(seen.txs[id], receipts)), receipts)
  {
    var d' := seen.(txs := map id | id in seen.txs :: ReceivedRow(seen.txs[id], receipts));
    forall id | Care(d, id)
      ensures Care(d', id)
      ensures id in d'.txs ==> id in d.txs && RowReceived(d.txs[id], d'.txs[id], receipts)
    {
      assert Care(seen, id);
      if id in d'.txs {
        ReceivedIsRowReceived(seen.txs[id], receipts);
        assert SameForUs(d.txs[id], seen.txs[id]);
      }
    }
  }

  // ------------------------------------------------------------ missing receipts

  /** A later transaction of the same key is confirmed. */
  ghost predicate LaterIsConfirmed(db: Db, tx: Tx) {
    tx.sequence.Some? && exists j :: j in db.txs && IsLater(db, tx, j)
  }

  ghost predicate IsLater(db: Db, tx: Tx, j: int)
    requires j in db.txs && tx.sequence.Some?
  {
    db.txs[j].from == tx.from && db.txs[j].state.Confirmed? && db.txs[j].sequence.Some? && tx.sequence.value < db.txs[j].sequence.value
  }

  /** Of the transactions of one key no unconfirmed one is left before a confirmed one; those
      that were are missing their receipt, and nothing else changed. */
  ghost predicate MarkedMissing(d: Db, d': Db) {
    && (forall id :: id in d'.txs && d'.txs[id].state.Unconfirmed? ==> !LaterIsConfirmed(d', d'.txs[id]))
    && (forall id :: Care(d, id) ==> Care(d', id))
    && forall id :: Care(d, id) && id in d'.txs ==>
         && id in d.txs
         && (SameForUs(d.txs[id], d'.txs[id])
             || (d.txs[id].state.Unconfirmed? && d'.txs[id].state.ConfirmedMissingReceipt? && LaterIsConfirmed(d', d'.txs[id])
                 && SameForUs(d.txs[id], d'.txs[id].(state := Unconfirmed))))
  }

  lemma OvertakenIsMarked(d: Db, seen: Db)
    requires Framed(d, seen, {})
    ensures MarkedMissing(d, seen.(txs := map id | id in seen.txs :: OvertakenRow(seen, seen.txs[id])))
  {
    var d' := seen.(txs := map id | id in seen.txs :: OvertakenRow(seen, seen.txs[id]));
    forall id | id in d'.txs && d'.txs[id].state.Unconfirmed?
      ensures !LaterIsConfirmed(d', d'.txs[id])
    {
      assert forall j :: j in d'.txs && d'.txs[j].state.Confirmed? ==> seen.txs[j] == d'.txs[j];
    }
    forall id | Care(d, id) && id in d'.txs && !SameForUs(d.txs[id], d'.txs[id])
      ensures LaterIsConfirmed(d', d'.txs[id])
    {
      var j :| j in seen.txs && seen.txs[j].from == seen.txs[id].from && seen.txs[j].state.Confirmed?
               && seen.txs[j].sequence.Some? && seen.txs[id].sequence.value < seen.txs[j].sequence.value;
      assert d'.txs[j] == seen.txs[j] && IsLater(d', d'.txs[id], j);
    }
  }

  /** The latest block number that any attempt was stamped with. */
  ghost predicate IsLatestStamp(tx: Tx, n: int) {
    && (exists a :: a in tx.attempts && tx.attempts[a].broadcastBefore == Some(n))
    && forall a :: a in tx.attempts && tx.attempts[a].broadcastBefore.Some? ==> tx.attempts[a].broadcastBefore.value <= n
  }

  ghost predicate StampsAmong(tx: Tx, attempts: set<int>, n: int) {
    && (exists a :: a in attempts && a in tx.attempts && tx.attempts[a].broadcastBefore == Some(n))
    && forall a :: a in attempts && a in tx.attempts && tx.attempts[a].broadcastBefore.Some? ==> tx.attempts[a].broadcastBefore.value <= n
  }

  lemma {:induction false} LatestAmongExists(tx: Tx, attempts: set<int>)
    requires exists a :: a in attempts && a in tx.attempts && tx.attempts[a].broadcastBefore.Some?
    ensures exists n :: StampsAmong(tx, attempts, n)
    decreases attempts
  {
    var a :| a in attempts && a in tx.attempts && tx.attempts[a].broadcastBefore.Some?;
    var n, rest := tx.attempts[a].broadcastBefore.value, attempts - {a};
    if exists b :: b in rest && b in tx.attempts && tx.attempts[b].broadcastBefore.Some? {
      LatestAmongExists(tx, rest);
      var m :| StampsAmong(tx, rest, m);
      assert StampsAmong(tx, attempts, if n < m then m else n);
    } else {
      forall b | b in attempts && b in tx.attempts && tx.attempts[b].broadcastBefore.Some?
        ensures b == a
      {
        assert b !in rest;
      }
      assert StampsAmong(tx, attempts, n);
    }
  }

  /** It missed its receipt since before the cutoff. */
  ghost predicate MissedSince(tx: Tx, cutoff: int) {
    tx.state.ConfirmedMissingReceipt? && exists n :: n < cutoff && IsLatestStamp(tx, n)
  }

  lemma ExpiredIffMissedSince(tx: Tx, cutoff: int)
    ensures Expired(tx, cutoff) <==> MissedSince(tx, cutoff)
  {
    if Expired(tx, cutoff) {
      LatestAmongExists(tx, tx.attempts.Keys);
      var n :| StampsAmong(tx, tx.attempts.Keys, n);
      assert IsLatestStamp(tx, n);
    }
  }

  /** Exactly the transactions that went without a receipt for the finality depth fail and
      give up their sequence. */
  ghost predicate ExpiredOnly(d: Db, d': Db, blockNum: int, finalityDepth: nat) {
    forall id :: Care(d, id) && id in d'.txs ==>
      && id in d.txs
      && if blockNum > finalityDepth && MissedSince(d.txs[id], blockNum - finalityDepth)
         then d'.txs[id].state.FatalError? && d'.txs[id].sequence.None? && d'.txs[id].error
              && d'.txs[id].from == d.txs[id].from && d'.txs[id].attempts == d.txs[id].attempts
         else SameForUs(d.txs[id], d'.txs[id])
  }

  lemma ExpiredIsExact(d: Db, seen: Db, blockNum: int, finalityDepth: nat)
    requires Framed(d, seen, {}) && blockNum > finalityDepth
    ensures ExpiredOnly(d, seen.(txs := map id | id in seen.txs :: ExpiredRow(seen.txs[id], blockNum - finalityDepth)), blockNum, finalityDepth)
  {
    forall id | Care(d, id) && id in seen.txs
      ensures Expired(seen.txs[id], blockNum - finalityDepth) <==> MissedSince(d.txs[id], blockNum - finalityDepth)
    {
      assert SameForUs(d.txs[id], seen.txs[id]);
      ExpiredIffMissedSince(seen.txs[id], blockNum - finalityDepth);
      assert forall n :: IsLatestStamp(d.txs[id], n) <==> IsLatestStamp(seen.txs[id], n);
    }
  }
}
