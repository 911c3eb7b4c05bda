/** The Confirmer seen from the database: what its store calls may change, what it
    relies on, and why it and the Broadcaster never get in each other's way. */
module ConfirmerProtocol {
  import opened Options
  import opened TxTypes
  import opened BroadcasterProtocol

  // --------------------------------------------------------- unsent attempts

  ghost predicate Unsent(tx: Tx, a: int) {
    a in tx.attempts && tx.attempts[a].state.AttemptInProgress?
  }

  ghost predicate AtMostOneUnsent(tx: Tx) {
    forall a, b :: Unsent(tx, a) && Unsent(tx, b) ==> a == b
  }

  /** No two attempts of a transaction cost the same, and one that is in_progress is
      dearer than every other: a bump starts from the dearest attempt, and so does
      a resubmission. */
  ghost predicate RowPriced(tx: Tx) {
    forall a, b :: a in tx.attempts && b in tx.attempts && a != b ==>
      && tx.attempts[a].fee != tx.attempts[b].fee
      && (Unsent(tx, a) ==> tx.attempts[b].fee < tx.attempts[a].fee)
  }

  ghost predicate Priced(db: Db) {
    forall id :: id in db.txs ==> RowPriced(db.txs[id])
  }

  lemma PricedMeansOneUnsent(db: Db, id: int)
    requires Priced(db) && id in db.txs
    ensures AtMostOneUnsent(db.txs[id])
  {
  }

  /** An attempt left in_progress on a transaction the Confirmer looks after. */
  ghost predicate Leftover(db: Db, key: Addr, id: int, a: int) {
    id in db.txs && db.txs[id].from == key && WithConfirmer(db.txs[id].state) && Unsent(db.txs[id], a)
  }

  ghost predicate NoLeftovers(db: Db, key: Addr) {
    forall id, a :: !Leftover(db, key, id, a)
  }

  // ------------------------------------------------------------ own store calls

  /** What one atomic call of the Confirmer may do to one row. */
  ghost predicate RowStep(row: Tx, row': Tx, lastAttemptId: int) {
    row' == row
    || (&& (WithConfirmer(row.state) || row.state.FatalError?)
        && row'.id == row.id && row'.from == row.from
        && (if row'.state.FatalError? then row'.sequence.None?
            else WithConfirmer(row.state) && WithConfirmer(row'.state) && row'.sequence == row.sequence)
        && AttemptsOk(row', lastAttemptId))
  }

  ghost predicate ConfirmerStep(d: Db, d': Db) {
    && d'.txs.Keys == d.txs.Keys
    && d'.lastTxId == d.lastTxId && d.lastAttemptId <= d'.lastAttemptId
    && d'.next == d.next && d'.handed == d.handed
    && forall id :: id in d.txs ==> RowStep(d.txs[id], d'.txs[id], d'.lastAttemptId)
  }

  /** Every call of the Confirmer keeps Inv and is among the steps that the
      Broadcaster of any key puts up with. */
  lemma ConfirmerStepIsHarmless(d: Db, d': Db, key: Addr)
    requires ConfirmerStep(d, d')
    ensures Inv(d) ==> Inv(d')
    ensures Rely(key, d, d')
  {
    if Inv(d) {
      forall id | id in d'.txs
        ensures d'.txs[id].from in d'.next && RowOk(d', id)
      {
        assert RowOk(d, id) && RowStep(d.txs[id], d'.txs[id], d'.lastAttemptId);
      }
      forall i, j | i in d'.txs && j in d'.txs && d'.txs[i].from == d'.txs[j].from
                    && d'.txs[i].sequence.Some? && d'.txs[i].sequence == d'.txs[j].sequence
        ensures i == j
      {
        assert RowStep(d.txs[i], d'.txs[i], d'.lastAttemptId) && RowStep(d.txs[j], d'.txs[j], d'.lastAttemptId);
        assert RowOk(d', i) && RowOk(d', j);
      }
    }
    forall id | id in d.txs
      ensures RowStep(d.txs[id], d'.txs[id], d'.lastAttemptId)
    {
    }
  }

  // -------------------------------------------------------------- everybody else

  ghost predicate SameButBroadcastAt(row: Tx, row': Tx) {
    row'.(broadcastAt := row.broadcastAt) == row
  }

  /** What the Confirmer relies on: the Broadcasters, enqueues, prunes, the resender
      and the reaper keep Inv, leave its rows alone except for the time of the
      last broadcast, or delete them, and every row that comes into its care
      comes without an in_progress attempt. */
  ghost predicate ConfirmerRely(d: Db, d': Db) {
    && (Inv(d) ==> Inv(d'))
    && d.lastTxId <= d'.lastTxId && d.lastAttemptId <= d'.lastAttemptId
    && (forall id :: id in d'.txs && id !in d.txs ==> d.lastTxId < id)
    && (forall id :: id in d.txs && WithConfirmer(d.txs[id].state) ==> id !in d'.txs || SameButBroadcastAt(d.txs[id], d'.txs[id]))
    && (forall id :: id in d'.txs && WithConfirmer(d'.txs[id].state) && !(id in d.txs && WithConfirmer(d.txs[id].state)) ==>
          forall a :: !Unsent(d'.txs[id], a))
    && (Inv(d) && Priced(d) ==> Priced(d'))
  }

  /** A row the Broadcaster wrote is priced if it was: it has one attempt or none, or its
      attempts cost what they did and are no longer in_progress. */
  lemma BroadcasterKeepsPriced(key: Addr, c: Call, d: Db)
    requires Inv(d) && Guard(key, c, d) && RowPriced(d.txs[c.id])
    ensures RowPriced(Effect(key, c, d).txs[c.id])
  {
  }

  /** A transaction is handed over with its only attempt marked as broadcast. */
  lemma HandedOverIsSent(key: Addr, c: Call, d: Db)
    requires Inv(d) && Guard(key, c, d) && c.HandOver?
    ensures forall a :: !Unsent(Effect(key, c, d).txs[c.id], a)
  {
  }

  lemma OnlyOneRowWritten(key: Addr, c: Call, d: Db)
    requires Guard(key, c, d)
    ensures var d' := Effect(key, c, d);
            && d'.txs == d.txs[c.id := d'.txs[c.id]] && c.id in d.txs && d.txs[c.id].from == key
            && (d.txs[c.id].state.Unstarted? || d.txs[c.id].state.InProgress?)
            && (WithConfirmer(d'.txs[c.id].state) ==> c.HandOver?)
            && d.lastTxId <= d'.lastTxId && d.lastAttemptId <= d'.lastAttemptId
  {
  }

  /** The other half of the bargain: every call of the Broadcaster of any key is
      among the steps that the Confirmer puts up with. */
  lemma BroadcasterStepIsHarmless(key: Addr, c: Call, d: Db)
    requires Inv(d) && Guard(key, c, d)
    ensures ConfirmerRely(d, Effect(key, c, d))
  {
    var d' := Effect(key, c, d);
    OwnStepKeepsInv(key, c, d);
    OnlyOneRowWritten(key, c, d);
    if c.HandOver? {
      HandedOverIsSent(key, c, d);
    }
    if Priced(d) {
      BroadcasterKeepsPriced(key, c, d);
      assert Priced(d');
    }
  }

  // -------------------------------------------------- enqueues, prunes and the reaper

  ghost predicate Enqueue(d: Db, d': Db, key: Addr, value: int, createdAt: int) {
    && key in d.next
    && d' == d.(lastTxId := d.lastTxId + 1,
                txs := d.txs[d.lastTxId + 1 := Tx(d.lastTxId + 1, key, value, createdAt, Unstarted, None, map[], None, None, false)])
  }

  /** Prunes delete unstarted rows, the reaper deletes confirmed and failed ones. */
  ghost predicate Delete(d: Db, d': Db, ids: set<int>) {
    && d' == d.(txs := d.txs - ids)
    && forall id :: id in ids && id in d.txs ==> d.txs[id].state.Unstarted? || d.txs[id].state.Confirmed? || d.txs[id].state.FatalError?
  }

  lemma EnqueueKeepsInv(d: Db, d': Db, owner: Addr, value: int, createdAt: int)
    requires Inv(d) && Enqueue(d, d', owner, value, createdAt)
    ensures Inv(d') && d.lastTxId + 1 !in d.txs
    ensures Priced(d) ==> Priced(d')
  {
  }

  lemma EnqueueIsHarmless(d: Db, d': Db, owner: Addr, value: int, createdAt: int, key: Addr)
    requires Inv(d) && Enqueue(d, d', owner, value, createdAt)
    ensures Rely(key, d, d') && ConfirmerRely(d, d')
  {
    EnqueueKeepsInv(d, d', owner, value, createdAt);
  }

  /** UpdateBroadcastAts, as the resender calls it for transactions it had sent again. */
  ghost predicate Touch(d: Db, d': Db, ids: set<int>, now: int) {
    && (forall id :: id in ids && id in d.txs ==> !d.txs[id].state.Unstarted? && !d.txs[id].state.InProgress?)
    && d' == d.(txs := map id | id in d.txs :: if id in ids then BroadcastAt(d.txs[id], now) else d.txs[id])
  }

  /** The time of the last broadcast only moves forward, and stays unset. */
  function Later(at: Option<int>, now: int): (later: Option<int>)
    ensures later.Some? <==> at.Some?
    ensures at.Some? ==> at.value <= later.value && now <= later.value && (later.value == at.value || later.value == now)
  {
    if at.Some? && at.value < now then Some(now) else at
  }

  function BroadcastAt(tx: Tx, now: int): Tx { tx.(broadcastAt := Later(tx.broadcastAt, now)) }

  lemma TouchIsHarmless(d: Db, d': Db, ids: set<int>, now: int, key: Addr)
    requires Inv(d) && Touch(d, d', ids, now)
    ensures Rely(key, d, d') && ConfirmerRely(d, d')
  {
    TouchKeepsInv(d, d', ids, now);
  }

  lemma TouchKeepsInv(d: Db, d': Db, ids: set<int>, now: int)
    requires Inv(d) && Touch(d, d', ids, now)
    ensures Inv(d') && (Priced(d) ==> Priced(d'))
  {
    forall id | id in d'.txs
      ensures d'.txs[id].from in d'.next && RowOk(d', id)
      ensures Priced(d) ==> RowPriced(d'.txs[id])
    {
      assert RowOk(d, id);
      assert Priced(d) ==> RowPriced(d.txs[id]);
    }
  }

  lemma DeleteIsHarmless(d: Db, d': Db, ids: set<int>, key: Addr)
    requires Inv(d) && Delete(d, d', ids)
    ensures Rely(key, d, d') && ConfirmerRely(d, d')
  {
    forall id | id in d'.txs
      ensures d'.txs[id].from in d'.next && RowOk(d', id)
    {
      assert RowOk(d, id);
    }
  }

  /** The Broadcaster of another key does not disturb this one either. */
  lemma OtherBroadcasterIsHarmless(other: Addr, c: Call, d: Db, key: Addr)
    requires Inv(d) && other != key && Guard(other, c, d)
    ensures Rely(key, d, Effect(other, c, d))
  {
    OwnStepKeepsInv(other, c, d);
  }

  /** Abandon, run by Reset while nothing else runs: every unfinished transaction of
      the key fails and gives up its sequence; the keystore's counter stays. */
  function AbandonRow(tx: Tx, key: Addr): Tx {
    if tx.from == key && (tx.state.Unconfirmed? || tx.state.InProgress? || tx.state.Unstarted?)
    then tx.(state := FatalError, sequence := None, error := true) else tx
  }

  function Abandon(d: Db, key: Addr): Db { d.(txs := map id | id in d.txs :: AbandonRow(d.txs[id], key)) }

  lemma AbandonKeepsInv(d: Db, key: Addr)
    requires Inv(d)
    ensures Inv(Abandon(d, key)) && (Priced(d) ==> Priced(Abandon(d, key)))
    ensures forall id :: id in d.txs && d.txs[id].from == key ==>
              var state := Abandon(d, key).txs[id].state;
              state.Confirmed? || state.ConfirmedMissingReceipt? || state.FatalError?
  {
    var d' := Abandon(d, key);
    forall id | id in d'.txs
      ensures d'.txs[id].from in d'.next && RowOk(d', id)
      ensures Priced(d) ==> RowPriced(d'.txs[id])
    {
      assert RowOk(d, id);
      assert Priced(d) ==> RowPriced(d.txs[id]);
    }
  }

  /** What the function that Txm.Reset runs while both services are down does to the
      database: it may set the counter, and after that it may abandon the key. */
  function Reset(d: Db, key: Addr, n: Option<int>, abandon: bool): Db {
    var counted := if n.Some? then SetNext(d, key, n.value) else d;
    if abandon then Abandon(counted, key) else counted
  }

  ghost predicate ResetFits(d: Db, key: Addr, n: Option<int>, abandon: bool)
    requires key in d.next
  {
    n.Some? ==> if abandon then AboveConfirmed(d, key, n.value) else NextFits(d, key, n.value)
  }

  ghost predicate AboveConfirmed(d: Db, key: Addr, n: int) {
    forall id :: id in d.txs && d.txs[id].from == key && (d.txs[id].state.Confirmed? || d.txs[id].state.ConfirmedMissingReceipt?) ==>
      d.txs[id].sequence.Some? && d.txs[id].sequence.value < n
  }

  lemma FitsWhatIsLeft(d: Db, key: Addr, n: int)
    requires Inv(d) && key in d.next
    ensures NextFits(Abandon(d, key), key, n) <==> AboveConfirmed(d, key, n)
  {
    var d' := Abandon(d, key);
    forall id | id in d.txs && d.txs[id].from == key
      ensures var row := d'.txs[id];
        if d.txs[id].state.Confirmed? || d.txs[id].state.ConfirmedMissingReceipt? then row == d.txs[id] && WithConfirmer(row.state)
        else row.state.FatalError?
    {
      assert RowOk(d, id);
    }
  }

  /** A reset keeps the invariant exactly when the counter is not set, or fits what the
      reset leaves of the key; abandoning makes room for any counter above what was
      confirmed. */
  lemma ResetKeepsInvIff(d: Db, key: Addr, n: Option<int>, abandon: bool)
    requires Inv(d) && key in d.next
    ensures Inv(Reset(d, key, n, abandon)) <==> ResetFits(d, key, n, abandon)
    ensures Priced(d) ==> Priced(Reset(d, key, n, abandon))
  {
    if abandon {
      AbandonKeepsInv(d, key);
      if n.Some? {
        SetNextKeepsInvIff(Abandon(d, key), key, n.value);
        FitsWhatIsLeft(d, key, n.value);
        assert Reset(d, key, n, abandon) == SetNext(Abandon(d, key), key, n.value);
      }
    } else if n.Some? {
      SetNextKeepsInvIff(d, key, n.value);
    }
  }

  /** A key that is added to the keystore starts counting at 0. */
  ghost predicate AddKey(d: Db, d': Db, key: Addr) {
    key !in d.next && d' == d.(next := d.next[key := 0], handed := d.handed[key := []])
  }

  lemma AddKeyIsHarmless(d: Db, d': Db, added: Addr, key: Addr)
    requires Inv(d) && AddKey(d, d', added)
    ensures Rely(key, d, d') && ConfirmerRely(d, d')
  {
    forall id | id in d'.txs
      ensures d'.txs[id].from in d'.next && RowOk(d', id)
    {
      assert RowOk(d, id);
    }
    assert SequencesUnique(d');
  }

  // ------------------------------------------------- what a caller remembers

  /** A row the Confirmer looked up stays in its care, or is deleted for good. */
  ghost predicate Care(db: Db, id: int) {
    id <= db.lastTxId && (id in db.txs ==> WithConfirmer(db.txs[id].state))
  }

  ghost predicate SameForUs(row: Tx, row': Tx) {
    row'.attempts == row.attempts && row'.state == row.state && row'.from == row.from && row'.sequence == row.sequence
  }

  /** Between d and d' the Confirmer wrote no rows but those in `written`. */
  ghost predicate Framed(d: Db, d': Db, written: set<int>) {
    && (forall id :: Care(d, id) ==> Care(d', id))
    && (forall id :: id !in written && Care(d, id) && id in d'.txs ==> id in d.txs && SameForUs(d.txs[id], d'.txs[id]))
    && (forall key, id, a :: Leftover(d', key, id, a) && id !in written ==> Leftover(d, key, id, a))
    && (forall id :: Care(d, id) && id in d'.txs ==> id in d.txs && d'.txs[id].from == d.txs[id].from)
  }

  lemma RelyIsFramed(d: Db, d': Db)
    requires ConfirmerRely(d, d')
    ensures Framed(d, d', {})
  {
  }

  lemma FramedTransitive(a: Db, b: Db, c: Db, written: set<int>)
    requires (Framed(a, b, written) || Framed(a, b, {})) && Framed(b, c, written)
    ensures Framed(a, c, written)
  {
  }

  lemma FramedOneMore(a: Db, b: Db, c: Db, written: set<int>, id: int)
    requires Framed(a, b, written) && Framed(b, c, {id}) && id in written
    ensures Framed(a, c, written)
  {
  }

  /** Between d and d' the Confirmer wrote no rows but those of one key. */
  ghost predicate KeyFramed(d: Db, d': Db, key: Addr) {
    && (forall id :: Care(d, id) ==> Care(d', id))
    && (forall id :: Care(d, id) && id in d'.txs ==>
          && id in d.txs && d'.txs[id].from == d.txs[id].from
          && (d.txs[id].from != key ==> SameForUs(d.txs[id], d'.txs[id])))
    && (forall other, id, a :: other != key && Leftover(d', other, id, a) ==> Leftover(d, other, id, a))
  }

  lemma FramedToKey(d: Db, d': Db, written: set<int>, key: Addr)
    requires Framed(d, d', written)
    requires forall id :: id in written ==> Care(d, id) && (id in d.txs ==> d.txs[id].from == key)
    ensures KeyFramed(d, d', key)
  {
  }

  lemma KeyFramedTransitive(a: Db, b: Db, c: Db, key: Addr)
    requires KeyFramed(a, b, key) && KeyFramed(b, c, key)
    ensures KeyFramed(a, c, key)
  {
  }

  lemma RowWriteIsFramed(d: Db, id: int, row: Tx, lastAttemptId: int)
    requires id in d.txs && row.from == d.txs[id].from && (WithConfirmer(d.txs[id].state) ==> WithConfirmer(row.state))
    ensures Framed(d, d.(lastAttemptId := lastAttemptId, txs := d.txs[id := row]), {id})
  {
  }
}
