/** What the Confirmer's store calls do to single rows, which rows its queries
    select, and that every update leaves the row priced and within RowStep. */
module ConfirmerRows {
  import opened Options
  import opened TxTypes
  import opened ConfirmerProtocol
  import opened AttemptListing

  // ------------------------------------------------------------- row updates

  function WithAttempt(tx: Tx, attempt: Attempt): Tx {
    tx.(attempts := tx.attempts[attempt.id := attempt])
  }

  function WithoutAttempt(tx: Tx, a: int): Tx { tx.(attempts := tx.attempts - {a}) }

  datatype Verdict = Sent | OutOfFunds | MissingReceipt | Deleted

  function FinishedAttempts(attempts: map<int, Attempt>, a: int, v: Verdict): map<int, Attempt> {
    if v.Deleted? then attempts - {a}
    else if a !in attempts then attempts
    else attempts[a := attempts[a].(id := a, state := if v.OutOfFunds? then AttemptInsufficientFunds else AttemptBroadcast)]
  }

  function FinishedRow(tx: Tx, a: int, v: Verdict, now: int): Tx {
    tx.(attempts := FinishedAttempts(tx.attempts, a, v),
        state := if v.MissingReceipt? then ConfirmedMissingReceipt else tx.state,
        broadcastAt := if v.Deleted? then tx.broadcastAt else Later(tx.broadcastAt, now))
  }

  /** What settling an attempt means for its transaction: the attempt is gone, broadcast or
      out of funds, and nothing else of the transaction changes, except that one
      whose sequence was used already is missing its receipt. */
  ghost predicate AfterVerdict(tx: Tx, tx': Tx, a: int, v: Verdict) {
    && tx'.from == tx.from && tx'.sequence == tx.sequence
    && tx'.state == (if v.MissingReceipt? then ConfirmedMissingReceipt else tx.state)
    && OthersKept(tx, tx', {a})
    && match v
       case Deleted => a !in tx'.attempts
       case OutOfFunds => a in tx.attempts && a in tx'.attempts && tx'.attempts[a] == tx.attempts[a].(state := AttemptInsufficientFunds)
       case _ => a in tx.attempts && a in tx'.attempts && tx'.attempts[a] == tx.attempts[a].(state := AttemptBroadcast)
  }

  /** All attempts but these are as they were. */
  ghost predicate OthersKept(tx: Tx, tx': Tx, except: set<int>) {
    forall b :: b !in except ==> (b in tx'.attempts <==> b in tx.attempts) && (b in tx.attempts ==> tx'.attempts[b] == tx.attempts[b])
  }

  /** A new attempt was added to the row, or one of its attempts is to be sent once more, with
      the stamp it was given; `saved` is the one that is in_progress now. */
  ghost predicate IsSaved(tx: Tx, tx': Tx, attempt: Attempt, saved: Attempt) {
    && tx'.from == tx.from && tx'.sequence == tx.sequence && tx'.state == tx.state
    && OthersKept(tx, tx', {saved.id})
    && saved.id in tx'.attempts && tx'.attempts[saved.id] == saved
    && if attempt.id == 0 then saved.id !in tx.attempts && saved == attempt.(id := saved.id)
       else saved.id == attempt.id && attempt.id in tx.attempts
            && saved == tx.attempts[attempt.id].(state := AttemptInProgress, broadcastBefore := attempt.broadcastBefore)
  }

  /** One attempt of the row is gone and a new one is there instead. */
  ghost predicate IsReplaced(tx: Tx, tx': Tx, replaced: int, saved: Attempt) {
    && tx'.from == tx.from && tx'.sequence == tx.sequence && tx'.state == tx.state
    && OthersKept(tx, tx', {replaced, saved.id})
    && replaced in tx.attempts && replaced !in tx'.attempts && saved.id !in tx.attempts
    && saved.id in tx'.attempts && tx'.attempts[saved.id] == saved
  }

  /** UpdateTxForRebroadcast: no receipts, unconfirmed, and the attempt to be sent again. */
  function RebroadcastRow(tx: Tx, a: int): Tx {
    var bare := map k | k in tx.attempts :: tx.attempts[k].(receipts := []);
    var row := tx.(state := Unconfirmed, attempts := bare);
    if a in bare then WithAttempt(row, bare[a].(id := a, state := AttemptInProgress, broadcastBefore := None)) else row
  }

  /** What marking a re-orged transaction with its attempt `a` means: it is unconfirmed with its
      old sequence, all receipts are gone, `a` is to be sent again and to be stamped anew,
      and the other attempts keep everything else. */
  ghost predicate ToBeResent(tx: Tx, tx': Tx, a: int) {
    && tx'.state.Unconfirmed? && tx'.from == tx.from && tx'.sequence == tx.sequence
    && tx'.attempts.Keys == tx.attempts.Keys && a in tx.attempts
    && tx'.attempts[a] == tx.attempts[a].(state := AttemptInProgress, broadcastBefore := None, receipts := [])
    && forall b :: b in tx.attempts && b != a ==> tx'.attempts[b] == tx.attempts[b].(receipts := [])
  }

  predicate SentBefore(attempt: Attempt, blockNum: int) {
    attempt.state.AttemptBroadcast? && attempt.broadcastBefore.Some? && attempt.broadcastBefore.value <= blockNum
  }

  // ------------------------------------------------------- updates of the whole table

  /** SetBroadcastBeforeBlockNum stamps the broadcast attempts that have no number yet. */
  function Stamped(tx: Tx, blockNum: int): Tx {
    tx.(attempts := map a | a in tx.attempts ::
          if tx.attempts[a].state.AttemptBroadcast? && tx.attempts[a].broadcastBefore.None?
          then tx.attempts[a].(broadcastBefore := Some(blockNum)) else tx.attempts[a])
  }

  /** Exactly the broadcast attempts without a number got this one. */
  ghost predicate StampedOnly(d: Db, d': Db, blockNum: int) {
    && d' == d.(txs := d'.txs) && d'.txs.Keys == d.txs.Keys
    && forall id :: id in d.txs ==> StampedRow(d.txs[id], d'.txs[id], blockNum)
  }

  ghost predicate StampedRow(tx: Tx, tx': Tx, blockNum: int) {
    && tx' == tx.(attempts := tx'.attempts) && tx'.attempts.Keys == tx.attempts.Keys
    && forall a :: a in tx.attempts ==>
         tx'.attempts[a] == if tx.attempts[a].state.AttemptBroadcast? && tx.attempts[a].broadcastBefore.None?
                            then tx.attempts[a].(broadcastBefore := Some(blockNum)) else tx.attempts[a]
  }

  function ReceiptFor(txHash: int, receipts: seq<Receipt>): Option<Receipt> {
    if receipts == [] then None
    else if receipts[0].txHash == txHash then Some(receipts[0])
    else ReceiptFor(txHash, receipts[1..])
  }

  /** Insert, or replace the receipt from the same block. */
  function Upsert(receipts: seq<Receipt>, r: Receipt): seq<Receipt> {
    if receipts == [] then [r]
    else if receipts[0].blockHash == r.blockHash then [r] + receipts[1..]
    else [receipts[0]] + Upsert(receipts[1..], r)
  }

  function WithReceipt(attempt: Attempt, receipts: seq<Receipt>): Attempt {
    match ReceiptFor(attempt.txHash, receipts)
    case None => attempt
    case Some(r) => attempt.(state := AttemptBroadcast, receipts := Upsert(attempt.receipts, r),
                             broadcastBefore := if attempt.broadcastBefore.Some? then attempt.broadcastBefore else Some(r.blockNumber))
  }

  /** One of the receipts is about this hash. */
  ghost predicate Answered(txHash: int, receipts: seq<Receipt>) { exists r :: r in receipts && r.txHash == txHash }

  lemma {:induction false} ReceiptForIsFound(txHash: int, receipts: seq<Receipt>)
    ensures ReceiptFor(txHash, receipts).Some? <==> Answered(txHash, receipts)
    ensures ReceiptFor(txHash, receipts).Some? ==>
              ReceiptFor(txHash, receipts).value in receipts && ReceiptFor(txHash, receipts).value.txHash == txHash
  {
    if receipts != [] {
      assert forall r :: r in receipts <==> r == receipts[0] || r in receipts[1..];
      ReceiptForIsFound(txHash, receipts[1..]);
    }
  }

  /** Only the receipt from the same block gives way to the new one. */
  lemma {:induction false} UpsertReplacesOne(receipts: seq<Receipt>, r: Receipt)
    ensures r in Upsert(receipts, r)
    ensures forall x :: x in Upsert(receipts, r) ==> x == r || x in receipts
    ensures forall x :: x in receipts && x.blockHash != r.blockHash ==> x in Upsert(receipts, r)
  {
    if receipts != [] && receipts[0].blockHash != r.blockHash {
      assert forall x :: x in receipts <==> x == receipts[0] || x in receipts[1..];
      UpsertReplacesOne(receipts[1..], r);
    }
  }

  predicate GotReceipt(tx: Tx, receipts: seq<Receipt>) {
    exists a :: a in tx.attempts && ReceiptFor(tx.attempts[a].txHash, receipts).Some?
  }

  /** SaveFetchedReceipts: the attempt was broadcast and its transaction is confirmed.
      A hash belongs to one attempt, and receipts are fetched only for
      transactions in the Confirmer's care. */
  function ReceivedRow(tx: Tx, receipts: seq<Receipt>): Tx {
    if WithConfirmer(tx.state) && GotReceipt(tx, receipts)
    then tx.(state := Confirmed, attempts := map a | a in tx.attempts :: WithReceipt(tx.attempts[a], receipts))
    else tx
  }

  /** MarkAllConfirmedMissingReceipt: a higher sequence of the same key is confirmed. */
  predicate Overtaken(db: Db, tx: Tx) {
    tx.state.Unconfirmed? && tx.sequence.Some?
    && exists j :: j in db.txs && db.txs[j].from == tx.from && db.txs[j].state.Confirmed?
              && db.txs[j].sequence.Some? && tx.sequence.value < db.txs[j].sequence.value
  }

  function OvertakenRow(db: Db, tx: Tx): Tx {
    if Overtaken(db, tx) then tx.(state := ConfirmedMissingReceipt) else tx
  }

  /** MarkOldTxesMissingReceiptAsErrored: the latest block number any attempt was
      stamped with lies below the cutoff; attempts without one do not count. */
  predicate Expired(tx: Tx, cutoff: int) {
    && tx.state.ConfirmedMissingReceipt?
    && (exists a :: a in tx.attempts && tx.attempts[a].broadcastBefore.Some?)
    && (forall a :: a in tx.attempts && tx.attempts[a].broadcastBefore.Some? ==> tx.attempts[a].broadcastBefore.value < cutoff)
  }

  function ExpiredRow(tx: Tx, cutoff: int): Tx {
    if Expired(tx, cutoff)
    then tx.(state := FatalError, sequence := None, error := true, broadcastAt := None, initialBroadcastAt := None)
    else tx
  }

  function UnconfirmedRow(tx: Tx, ids: set<int>): Tx {
    if tx.id in ids then tx.(state := Unconfirmed) else tx
  }

  // -------------------------------------------------------------- query sets

  predicate HasUnsent(tx: Tx) {
    exists a :: a in tx.attempts && tx.attempts[a].state.AttemptInProgress?
  }

  function UnsentIds(db: Db, key: Addr): set<int> {
    set id | id in db.txs && db.txs[id].from == key && WithConfirmer(db.txs[id].state) && HasUnsent(db.txs[id])
  }

  function InsufficientIds(db: Db, key: Addr): set<int> {
    set id | id in db.txs && InState(db, key, Unconfirmed, id)
          && exists a :: a in db.txs[id].attempts && db.txs[id].attempts[a].state.AttemptInsufficientFunds?
  }

  /** All attempts broadcast at least `threshold` blocks ago, among the `depth`
      lowest unconfirmed sequences; 0 switches each of the two off. */
  function GasBumpIds(db: Db, key: Addr, blockNum: int, threshold: int, depth: int): set<int> {
    if threshold == 0 then {}
    else set id | id in db.txs && InState(db, key, Unconfirmed, id)
          && (forall a :: a in db.txs[id].attempts ==> SentBefore(db.txs[id].attempts[a], blockNum - threshold))
          && (depth == 0 || |LowerUnconfirmed(db, key, id)| < depth)
  }

  function LowerUnconfirmed(db: Db, key: Addr, id: int): set<int>
    requires id in db.txs
  {
    set j | j in db.txs && InState(db, key, Unconfirmed, j)
         && db.txs[j].sequence.Some? && db.txs[id].sequence.Some? && db.txs[j].sequence.value < db.txs[id].sequence.value
  }

  predicate AwaitsReceipt(tx: Tx) { tx.state.Unconfirmed? || tx.state.ConfirmedMissingReceipt? }

  ghost predicate MayBeMined(tx: Tx, a: int) {
    AwaitsReceipt(tx) && tx.sequence.Some? && a in tx.attempts && !tx.attempts[a].state.AttemptInsufficientFunds?
  }

  predicate ConfirmedInRange(tx: Tx, low: int, high: int) {
    && (tx.state.Confirmed? || tx.state.ConfirmedMissingReceipt?)
    && exists a, k :: a in tx.attempts && tx.attempts[a].state.AttemptBroadcast?
         && 0 <= k < |tx.attempts[a].receipts| && low <= tx.attempts[a].receipts[k].blockNumber <= high
  }

  function ConfirmedInRangeIds(db: Db, low: int, high: int): set<int> {
    set id | id in db.txs && ConfirmedInRange(db.txs[id], low, high)
  }

  ghost predicate IsDearest(tx: Tx, a: int) {
    a in tx.attempts && forall b :: b in tx.attempts && b != a ==> tx.attempts[b].fee < tx.attempts[a].fee
  }

  // ------------------------------------------------------------------- lemmas

  /** Adding the dearest attempt to a row without unsent ones keeps it priced. */
  lemma DearestKeepsPriced(tx: Tx, attempt: Attempt)
    requires RowPriced(tx) && forall a :: !Unsent(tx, a)
    requires forall a :: a in tx.attempts && a != attempt.id ==> tx.attempts[a].fee < attempt.fee
    ensures RowPriced(WithAttempt(tx, attempt))
  {
    var row := WithAttempt(tx, attempt);
    forall a, b | a in row.attempts && b in row.attempts && a != b
      ensures row.attempts[a].fee != row.attempts[b].fee
      ensures Unsent(row, a) ==> row.attempts[b].fee < row.attempts[a].fee
    {
      assert a != attempt.id ==> !Unsent(tx, a);
    }
  }

  /** However an attempt is finished, nothing of its transaction is left unsent. */
  lemma FinishedKeepsPriced(tx: Tx, a: int, v: Verdict, now: int)
    requires RowPriced(tx) && Unsent(tx, a)
    ensures RowPriced(FinishedRow(tx, a, v, now))
    ensures forall b :: !Unsent(FinishedRow(tx, a, v, now), b)
  {
  }

  lemma FinishedIsRowStep(tx: Tx, a: int, v: Verdict, now: int, lastAttemptId: int)
    requires WithConfirmer(tx.state) && a in tx.attempts && AttemptsOk(tx, lastAttemptId)
    ensures RowStep(tx, FinishedRow(tx, a, v, now), lastAttemptId)
  {
  }

  lemma RebroadcastIsRowStep(tx: Tx, a: int, lastAttemptId: int)
    requires WithConfirmer(tx.state) && a in tx.attempts && AttemptsOk(tx, lastAttemptId)
    ensures RowStep(tx, RebroadcastRow(tx, a), lastAttemptId)
  {
  }

  lemma SavedIsRowStep(tx: Tx, attempt: Attempt, lastAttemptId: int)
    requires WithConfirmer(tx.state) && AttemptsOk(tx, lastAttemptId) && attempt.txId == tx.id && 0 < attempt.id <= lastAttemptId
    ensures RowStep(tx, WithAttempt(tx, attempt), lastAttemptId)
  {
  }

  /** Settling a row does to it, seen from before the others acted, what the verdict says. */
  lemma FinishedAlike(found: Tx, tx: Tx, a: int, v: Verdict, now: int)
    requires SameForUs(found, tx) && RowPriced(tx) && Unsent(tx, a) && tx.attempts[a].id == a
    ensures var row := FinishedRow(tx, a, v, now);
            && AfterVerdict(found, row, a, v)
            && (forall b :: !Unsent(row, b))
            && (!v.Deleted? && row.broadcastAt.Some? ==> now <= row.broadcastAt.value)
  {
  }

  lemma SavedAsIs(found: Tx, tx: Tx, row: Tx, attempt: Attempt, saved: Attempt)
    requires SameForUs(found, tx) && row == WithAttempt(tx, saved) && saved.state.AttemptInProgress?
    requires if attempt.id == 0 then saved.id !in tx.attempts && saved == attempt.(id := saved.id)
             else saved.id == attempt.id && attempt.id in tx.attempts
                  && saved == tx.attempts[attempt.id].(state := AttemptInProgress, broadcastBefore := attempt.broadcastBefore)
    ensures IsSaved(found, row, attempt, saved) && Unsent(row, saved.id)
  {
  }

  lemma RebroadcastKeepsPriced(tx: Tx, a: int)
    requires RowPriced(tx) && forall b :: !Unsent(tx, b)
    requires forall b :: b in tx.attempts && b != a && a in tx.attempts ==> tx.attempts[b].fee < tx.attempts[a].fee
    ensures RowPriced(RebroadcastRow(tx, a))
  {
  }

  lemma FirstListedIsDearest(list: seq<Attempt>, tx: Tx, lastAttemptId: int)
    requires Lists(list, tx.attempts) && |list| > 0 && RowPriced(tx) && AttemptsOk(tx, lastAttemptId)
    ensures list[0].id in tx.attempts && tx.attempts[list[0].id] == list[0]
    ensures forall a :: a in tx.attempts && a != list[0].id ==> tx.attempts[a].fee < list[0].fee
    ensures forall a :: Unsent(tx, a) ==> a == list[0].id
  {
  }

  /** A row update that keeps the fees and unsends nothing. */
  ghost predicate Harmless(tx: Tx, tx': Tx) {
    && tx'.attempts.Keys == tx.attempts.Keys
    && forall a :: a in tx.attempts ==>
         && tx'.attempts[a].fee == tx.attempts[a].fee && tx'.attempts[a].id == tx.attempts[a].id && tx'.attempts[a].txId == tx.attempts[a].txId
         && (Unsent(tx', a) ==> Unsent(tx, a))
  }

  lemma HarmlessKeepsPriced(tx: Tx, tx': Tx)
    requires RowPriced(tx) && Harmless(tx, tx')
    ensures RowPriced(tx')
  {
  }

  lemma StampedIsRowStep(tx: Tx, blockNum: int, db: Db, id: int)
    requires Inv(db) && id in db.txs && db.txs[id] == tx && RowPriced(tx)
    ensures RowStep(tx, Stamped(tx, blockNum), db.lastAttemptId) && RowPriced(Stamped(tx, blockNum))
  {
  }

  lemma ReceivedIsRowStep(tx: Tx, receipts: seq<Receipt>, db: Db, id: int)
    requires Inv(db) && id in db.txs && db.txs[id] == tx && RowPriced(tx)
    ensures RowStep(tx, ReceivedRow(tx, receipts), db.lastAttemptId) && RowPriced(ReceivedRow(tx, receipts))
  {
    assert RowOk(db, id);
    HarmlessKeepsPriced(tx, ReceivedRow(tx, receipts));
  }

  lemma StateChangeIsRowStep(tx: Tx, row: Tx, db: Db, id: int)
    requires Inv(db) && id in db.txs && db.txs[id] == tx && RowPriced(tx)
    requires row == tx || WithConfirmer(tx.state)
    requires row.attempts == tx.attempts && row.id == tx.id && row.from == tx.from
    requires if row.state.FatalError? then row.sequence.None? else row.sequence == tx.sequence
    requires WithConfirmer(tx.state) ==> WithConfirmer(row.state) || row.state.FatalError?
    ensures RowStep(tx, row, db.lastAttemptId) && RowPriced(row)
  {
  }
}
