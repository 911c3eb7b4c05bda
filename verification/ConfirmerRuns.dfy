/** The runs of the Confirmer: its store calls one by one, what each needs and does,
    and what holds in every state that they and everybody else can reach. */
module ConfirmerRuns {
  import opened Options
  import opened TxTypes
  import opened BroadcasterProtocol
  import opened ConfirmerProtocol
  import opened ConfirmerRows

  datatype OwnCall =
    | InsertAttempt(id: int, attempt: Attempt)
    | ResendAttempt(id: int, a: int, broadcastBefore: Option<int>)
    | ReplaceAttempt(id: int, a: int, attempt: Attempt)
    | FinishAttempt(id: int, a: int, v: Verdict, now: int)
    | MarkForRebroadcast(id: int, a: int)
    | Stamp(blockNum: int)
    | Receive(fetched: seq<Receipt>)
    | MarkMissing
    | Expire(cutoff: int)
    | Unconfirm(ids: set<int>)

  ghost predicate InCare(d: Db, id: int) { id in d.txs && WithConfirmer(d.txs[id].state) }

  ghost predicate NoneUnsent(tx: Tx) { forall a :: !Unsent(tx, a) }

  predicate Bare(tx: Tx) { tx.attempts == map[] }

  /** When the Confirmer may make a call: it never adds to an attempt that is in_progress
      or to a transaction without any, and it sends only what is the dearest. */
  ghost predicate OwnGuard(c: OwnCall, d: Db) {
    match c
    case InsertAttempt(id, attempt) =>
      InCare(d, id) && NoneUnsent(d.txs[id]) && !Bare(d.txs[id]) && attempt.txId == id
      && forall a :: a in d.txs[id].attempts ==> d.txs[id].attempts[a].fee < attempt.fee
    case ResendAttempt(id, a, _) => InCare(d, id) && NoneUnsent(d.txs[id]) && IsDearest(d.txs[id], a)
    case ReplaceAttempt(id, a, attempt) =>
      InCare(d, id) && Unsent(d.txs[id], a) && attempt.txId == id && d.txs[id].attempts[a].fee < attempt.fee
    case FinishAttempt(id, a, _, _) => InCare(d, id) && Unsent(d.txs[id], a)
    case MarkForRebroadcast(id, a) => InCare(d, id) && IsDearest(d.txs[id], a) && d.txs[id].attempts[a].state.AttemptBroadcast?
    case Unconfirm(ids) => forall id :: id in ids && id in d.txs ==> WithConfirmer(d.txs[id].state)
    case _ => true
  }

  function WithRow(d: Db, id: int, row: Tx): Db { d.(txs := d.txs[id := row]) }

  function NewId(d: Db): int { d.lastAttemptId + 1 }

  function OwnEffect(c: OwnCall, d: Db): Db
    requires OwnGuard(c, d)
  {
    match c
    case InsertAttempt(id, attempt) =>
      WithRow(d, id, WithAttempt(d.txs[id], attempt.(id := NewId(d)))).(lastAttemptId := NewId(d))
    case ResendAttempt(id, a, broadcastBefore) =>
      WithRow(d, id, WithAttempt(d.txs[id], d.txs[id].attempts[a].(id := a, state := AttemptInProgress, broadcastBefore := broadcastBefore)))
    case ReplaceAttempt(id, a, attempt) =>
      WithRow(d, id, WithAttempt(WithoutAttempt(d.txs[id], a), attempt.(id := NewId(d)))).(lastAttemptId := NewId(d))
    case FinishAttempt(id, a, v, now) => WithRow(d, id, FinishedRow(d.txs[id], a, v, now))
    case MarkForRebroadcast(id, a) => WithRow(d, id, RebroadcastRow(d.txs[id], a))
    case Stamp(blockNum) => d.(txs := map id | id in d.txs :: Stamped(d.txs[id], blockNum))
    case Receive(fetched) => d.(txs := map id | id in d.txs :: ReceivedRow(d.txs[id], fetched))
    case MarkMissing => d.(txs := map id | id in d.txs :: OvertakenRow(d, d.txs[id]))
    case Expire(cutoff) => d.(txs := map id | id in d.txs :: ExpiredRow(d.txs[id], cutoff))
    case Unconfirm(ids) => d.(txs := map id | id in d.txs :: UnconfirmedRow(d.txs[id], ids))
  }

  predicate WritesOneRow(c: OwnCall) {
    c.InsertAttempt? || c.ResendAttempt? || c.ReplaceAttempt? || c.FinishAttempt? || c.MarkForRebroadcast?
  }

  ghost predicate StateOk(d: Db) { Inv(d) && Priced(d) }

  lemma RowWriteIsStep(d: Db, id: int, row: Tx, lastAttemptId: int)
    requires Priced(d) && id in d.txs && d.lastAttemptId <= lastAttemptId
    requires RowStep(d.txs[id], row, lastAttemptId) && RowPriced(row)
    requires forall j :: j in d.txs ==> AttemptsOk(d.txs[j], d.lastAttemptId)
    ensures var d' := WithRow(d, id, row).(lastAttemptId := lastAttemptId); ConfirmerStep(d, d') && Priced(d')
  {
  }

  lemma AllAttemptsOk(d: Db, lastAttemptId: int)
    requires Inv(d) && d.lastAttemptId <= lastAttemptId
    ensures forall j :: j in d.txs ==> AttemptsOk(d.txs[j], lastAttemptId)
  {
  }

  lemma SavedIsStep(c: OwnCall, d: Db)
    requires StateOk(d) && OwnGuard(c, d) && (c.InsertAttempt? || c.ResendAttempt? || c.ReplaceAttempt?)
    ensures ConfirmerStep(d, OwnEffect(c, d)) && Priced(OwnEffect(c, d))
  {
    var tx, d' := d.txs[c.id], OwnEffect(c, d);
    assert RowOk(d, c.id) && RowPriced(tx);
    AllAttemptsOk(d, d.lastAttemptId);
    AllAttemptsOk(d, d'.lastAttemptId);
    match c {
      case InsertAttempt(id, attempt) =>
        DearestKeepsPriced(tx, attempt.(id := NewId(d)));
        SavedIsRowStep(tx, attempt.(id := NewId(d)), NewId(d));
      case ResendAttempt(id, a, b) =>
        DearestKeepsPriced(tx, tx.attempts[a].(id := a, state := AttemptInProgress, broadcastBefore := b));
        SavedIsRowStep(tx, tx.attempts[a].(id := a, state := AttemptInProgress, broadcastBefore := b), d.lastAttemptId);
      case ReplaceAttempt(id, a, attempt) =>
        DearestKeepsPriced(WithoutAttempt(tx, a), attempt.(id := NewId(d)));
        SavedIsRowStep(WithoutAttempt(tx, a), attempt.(id := NewId(d)), NewId(d));
    }
    RowWriteIsStep(d, c.id, d'.txs[c.id], d'.lastAttemptId);
  }

  lemma SettledIsStep(c: OwnCall, d: Db)
    requires StateOk(d) && OwnGuard(c, d) && (c.FinishAttempt? || c.MarkForRebroadcast?)
    ensures ConfirmerStep(d, OwnEffect(c, d)) && Priced(OwnEffect(c, d))
  {
    var tx := d.txs[c.id];
    assert RowPriced(tx);
    AllAttemptsOk(d, d.lastAttemptId);
    match c {
      case FinishAttempt(id, a, v, now) =>
        FinishedKeepsPriced(tx, a, v, now);
        FinishedIsRowStep(tx, a, v, now, d.lastAttemptId);
        RowWriteIsStep(d, id, FinishedRow(tx, a, v, now), d.lastAttemptId);
      case MarkForRebroadcast(id, a) =>
        RebroadcastKeepsPriced(tx, a);
        RebroadcastIsRowStep(tx, a, d.lastAttemptId);
        RowWriteIsStep(d, id, RebroadcastRow(tx, a), d.lastAttemptId);
    }
  }

  lemma TableCallIsStep(c: OwnCall, d: Db)
    requires StateOk(d) && OwnGuard(c, d) && !WritesOneRow(c)
    ensures ConfirmerStep(d, OwnEffect(c, d)) && Priced(OwnEffect(c, d))
  {
    var d' := OwnEffect(c, d);
    forall id | id in d.txs
      ensures RowStep(d.txs[id], d'.txs[id], d.lastAttemptId) && RowPriced(d'.txs[id])
    {
      assert RowOk(d, id);
      match c
      case Stamp(blockNum) => StampedIsRowStep(d.txs[id], blockNum, d, id);
      case Receive(fetched) => ReceivedIsRowStep(d.txs[id], fetched, d, id);
      case MarkMissing => StateChangeIsRowStep(d.txs[id], d'.txs[id], d, id);
      case Expire(_) => StateChangeIsRowStep(d.txs[id], d'.txs[id], d, id);
      case Unconfirm(_) => StateChangeIsRowStep(d.txs[id], d'.txs[id], d, id);
    }
  }

  /** Every call of the Confirmer keeps the invariant and the prices. */
  lemma OwnCallKeepsState(c: OwnCall, d: Db, key: Addr)
    requires StateOk(d) && OwnGuard(c, d)
    ensures StateOk(OwnEffect(c, d)) && Rely(key, d, OwnEffect(c, d))
  {
    if c.FinishAttempt? || c.MarkForRebroadcast? {
      SettledIsStep(c, d);
    } else if WritesOneRow(c) {
      SavedIsStep(c, d);
    } else {
      TableCallIsStep(c, d);
    }
    ConfirmerStepIsHarmless(d, OwnEffect(c, d), key);
  }

  // ---------------------------------------------------------------------- runs

  datatype ConfirmerEvent = Mine(call: OwnCall) | Theirs

  datatype ConfirmerTrace = ConfirmerTrace(states: seq<Db>, events: seq<ConfirmerEvent>)
  {
    function Last(): Db
      requires |states| > 0
    {
      states[|states| - 1]
    }

    function Then(e: ConfirmerEvent, d: Db): ConfirmerTrace { ConfirmerTrace(states + [d], events + [e]) }

    predicate ContinuedBy(t: ConfirmerTrace) { states <= t.states && events <= t.events }
  }

  lemma ContinuedTransitive(a: ConfirmerTrace, b: ConfirmerTrace, c: ConfirmerTrace)
    requires a.ContinuedBy(b) && b.ContinuedBy(c)
    ensures a.ContinuedBy(c)
  {
  }

  ghost predicate ConfirmerEventStep(e: ConfirmerEvent, d: Db, d': Db) {
    match e
    case Mine(c) => OwnGuard(c, d) && d' == OwnEffect(c, d)
    case Theirs => ConfirmerRely(d, d')
  }

  ghost predicate ConfirmerStepAt(t: ConfirmerTrace, i: nat)
    requires |t.states| == |t.events| + 1 && i < |t.events|
  {
    ConfirmerEventStep(t.events[i], t.states[i], t.states[i + 1])
  }

  ghost predicate ConfirmerRun(t: ConfirmerTrace) {
    && |t.states| == |t.events| + 1
    && StateOk(t.states[0])
    && forall i :: 0 <= i < |t.events| ==> ConfirmerStepAt(t, i)
  }

  lemma ConfirmerRunThen(t: ConfirmerTrace, e: ConfirmerEvent, d: Db)
    requires ConfirmerRun(t) && ConfirmerEventStep(e, t.Last(), d)
    ensures ConfirmerRun(t.Then(e, d)) && t.ContinuedBy(t.Then(e, d))
  {
    var u := t.Then(e, d);
    forall i | 0 <= i < |u.events|
      ensures ConfirmerStepAt(u, i)
    {
      if i < |t.events| {
        assert ConfirmerStepAt(t, i);
      }
    }
  }

  /** Main safety theorem of the Confirmer: in every state of every run, no
      transaction has two in_progress attempts; and every call the Confirmer made
      on the way is a step that the Broadcaster of any key puts up with. */
  lemma {:induction false} ConfirmerRunGuarantee(t: ConfirmerTrace, n: nat, key: Addr)
    requires ConfirmerRun(t) && n < |t.states|
    ensures StateOk(t.states[n])
    ensures forall id :: id in t.states[n].txs ==> AtMostOneUnsent(t.states[n].txs[id])
    ensures n > 0 && t.events[n - 1].Mine? ==> Rely(key, t.states[n - 1], t.states[n])
  {
    if n > 0 {
      ConfirmerRunGuarantee(t, n - 1, key);
      assert ConfirmerStepAt(t, n - 1);
      if t.events[n - 1].Mine? {
        OwnCallKeepsState(t.events[n - 1].call, t.states[n - 1], key);
      }
    }
    forall id | id in t.states[n].txs
      ensures AtMostOneUnsent(t.states[n].txs[id])
    {
      PricedMeansOneUnsent(t.states[n], id);
    }
  }

  // ------------------------------------------------- transactions without attempts

  /** A transaction in the Confirmer's care loses its last attempt in one way only: the
      node rejects the attempt for good, and it is the only one. */
  lemma LosesLastAttemptIff(c: OwnCall, d: Db, id: int)
    requires StateOk(d) && OwnGuard(c, d) && InCare(d, id) && !Bare(d.txs[id])
    ensures Bare(OwnEffect(c, d).txs[id]) <==>
              c.FinishAttempt? && c.id == id && c.v.Deleted? && d.txs[id].attempts.Keys == {c.a}
  {
    var row, row' := d.txs[id], OwnEffect(c, d).txs[id];
    assert (forall a :: a !in row.attempts) ==> row.attempts == map[];
    if c.FinishAttempt? && c.id == id && c.v.Deleted? {
      assert row'.attempts.Keys == row.attempts.Keys - {c.a};
      if row'.attempts == map[] {
        assert row.attempts.Keys - {c.a} == {};
        assert row.attempts.Keys == {c.a};
      }
    } else if c.ReplaceAttempt? && c.id == id {
      assert NewId(d) in row'.attempts;
    } else {
      assert forall a :: a in row.attempts ==> a in row'.attempts;
    }
  }

  /** A transaction without attempts that still waits to be confirmed. */
  ghost predicate Lost(d: Db, id: int) {
    id <= d.lastTxId && (id in d.txs ==> Bare(d.txs[id]) && AwaitsReceipt(d.txs[id]))
  }

  lemma LostStaysLost(e: ConfirmerEvent, d: Db, d': Db, id: int)
    requires StateOk(d) && ConfirmerEventStep(e, d, d') && Lost(d, id)
    ensures Lost(d', id)
  {
    if e.Mine? && id in d.txs {
      OwnCallSparesLost(e.call, d, id);
    }
  }

  lemma OwnCallSparesLost(c: OwnCall, d: Db, id: int)
    requires OwnGuard(c, d) && id in d.txs && Bare(d.txs[id]) && AwaitsReceipt(d.txs[id])
    ensures var row := OwnEffect(c, d).txs[id]; Bare(row) && AwaitsReceipt(row)
  {
    var row := OwnEffect(c, d).txs[id];
    assert forall a :: a !in d.txs[id].attempts;
    assert WritesOneRow(c) ==> c.id != id;
    assert row.attempts.Keys == d.txs[id].attempts.Keys;
  }

  /** And it never gets another one: for the rest of every run it is neither sent nor
      confirmed nor failed, unless it is deleted. */
  lemma {:induction false} LostForGood(t: ConfirmerTrace, m: nat, n: nat, id: int)
    requires ConfirmerRun(t) && m <= n < |t.states| && Lost(t.states[m], id)
    ensures Lost(t.states[n], id)
    decreases n
  {
    if m < n {
      LostForGood(t, m, n - 1, id);
      ConfirmerRunGuarantee(t, n - 1, 0);
      assert ConfirmerStepAt(t, n - 1);
      LostStaysLost(t.events[n - 1], t.states[n - 1], t.states[n], id);
    }
  }
}
