/** The Broadcaster seen from the database: which atomic store calls it makes for
    one key, what everybody else may do in between, and what holds in every
    state a run of the two can reach. A crash between two store calls is a run
    that stops there; the next process goes on from the state it left behind. */
module BroadcasterProtocol {
  import opened Options
  import opened TxTypes

  // ------------------------------------------------ effects of the store calls

  /** UpdateTxUnstartedToInProgress: insert the attempt, set sequence and state. */
  function AssignEffect(db: Db, id: int, sequence: int, attempt: Attempt): Db
    requires id in db.txs
  {
    var a := db.lastAttemptId + 1;
    db.(lastAttemptId := a,
        txs := db.txs[id := db.txs[id].(state := InProgress, sequence := Some(sequence),
                                        attempts := map[a := attempt.(id := a)])])
  }

  /** SaveReplacementInProgressAttempt: delete the old attempt, insert the new one. */
  function ReplaceEffect(db: Db, id: int, oldAttempt: int, attempt: Attempt): Db
    requires id in db.txs
  {
    var a := db.lastAttemptId + 1;
    db.(lastAttemptId := a,
        txs := db.txs[id := db.txs[id].(attempts := (db.txs[id].attempts - {oldAttempt})[a := attempt.(id := a)])])
  }

  /** UpdateTxAttemptInProgressToBroadcast: one database transaction that bumps the
      keystore's next sequence and moves the transaction and its attempt on. */
  function HandOverEffect(db: Db, id: int, attemptId: int, broadcastAt: Option<int>, initialBroadcastAt: Option<int>): Db
    requires id in db.txs && attemptId in db.txs[id].attempts && db.txs[id].from in db.next && db.txs[id].from in db.handed
  {
    var tx := db.txs[id];
    var key := tx.from;
    db.(next := db.next[key := db.next[key] + 1],
        handed := db.handed[key := db.handed[key] + [db.next[key]]],
        txs := db.txs[id := tx.(state := Unconfirmed, broadcastAt := broadcastAt, initialBroadcastAt := initialBroadcastAt,
                                attempts := tx.attempts[attemptId := tx.attempts[attemptId].(state := AttemptBroadcast)])])
  }

  /** UpdateTxFatalError: drop the attempts and the sequence, record the error. */
  function FatalEffect(db: Db, id: int): Db
    requires id in db.txs
  {
    db.(txs := db.txs[id := db.txs[id].(state := FatalError, sequence := None, attempts := map[],
                                        broadcastAt := None, initialBroadcastAt := None, error := true)])
  }

  // -------------------------------------------------------- the Broadcaster's steps

  datatype Call =
    | Assign(id: int, attempt: Attempt)
    | Replace(id: int, oldAttempt: int, attempt: Attempt)
    | HandOver(id: int, attemptId: int, broadcastAt: Option<int>, initialBroadcastAt: Option<int>)
    | Fatal(id: int)

  /** When the Broadcaster for `key` may make a call. */
  ghost predicate Guard(key: Addr, c: Call, db: Db) {
    && key in db.next && key in db.handed
    && match c
       case Assign(id, attempt) =>
         InState(db, key, Unstarted, id) && IdsInState(db, key, InProgress) == {}
         && attempt.txId == id && attempt.state.AttemptInProgress?
       case Replace(id, oldAttempt, attempt) =>
         InState(db, key, InProgress, id) && oldAttempt in db.txs[id].attempts
         && attempt.txId == id && attempt.state.AttemptInProgress?
       case HandOver(id, attemptId, _, _) =>
         InState(db, key, InProgress, id) && attemptId in db.txs[id].attempts && db.txs[id].sequence == Some(db.next[key])
       case Fatal(id) => InState(db, key, InProgress, id)
  }

  ghost function Effect(key: Addr, c: Call, db: Db): Db
    requires Guard(key, c, db)
  {
    match c
    case Assign(id, attempt) => AssignEffect(db, id, db.next[key], attempt)
    case Replace(id, oldAttempt, attempt) => ReplaceEffect(db, id, oldAttempt, attempt)
    case HandOver(id, attemptId, at, initial) => HandOverEffect(db, id, attemptId, at, initial)
    case Fatal(id) => FatalEffect(db, id)
  }

  // ------------------------------------------------------------ everybody else

  /** What the Broadcaster for `key` relies on: enqueues, prunes, the Confirmer, the
      reaper and the Broadcasters of other keys keep Inv, leave this key's
      sequence and the transaction being sent alone, and only delete its
      unstarted transactions; new rows start out unstarted. */
  ghost predicate Rely(key: Addr, d: Db, d': Db) {
    && (Inv(d) ==> Inv(d'))
    && d.lastTxId <= d'.lastTxId
    && d.lastAttemptId <= d'.lastAttemptId
    && (key in d.next ==> key in d'.next && d'.next[key] == d.next[key])
    && (key in d.handed ==> key in d'.handed && d'.handed[key] == d.handed[key])
    && (forall id :: InState(d, key, InProgress, id) ==> id in d'.txs && d'.txs[id] == d.txs[id])
    && (forall id :: InState(d', key, InProgress, id) ==> InState(d, key, InProgress, id))
    && (forall id :: InState(d, key, Unstarted, id) ==> id !in d'.txs || d'.txs[id] == d.txs[id])
    && (forall id :: id in d'.txs && id !in d.txs ==> d.lastTxId < id)
  }

  /** Any number of steps of the others is again one step of the others. */
  lemma RelyTransitive(key: Addr, a: Db, b: Db, c: Db)
    requires Inv(a) && Rely(key, a, b) && Rely(key, b, c)
    ensures Rely(key, a, c)
  {
  }

  /** Nothing but the Broadcaster itself adds to the unconfirmed transactions. */
  ghost predicate Quiet(key: Addr, d: Db, d': Db) {
    IdsInState(d', key, Unconfirmed) <= IdsInState(d, key, Unconfirmed)
  }

  // ------------------------------------------------------------------------ runs

  datatype Event = Own(call: Call) | Others

  datatype Trace = Trace(states: seq<Db>, events: seq<Event>)
  {
    function Last(): Db
      requires |states| > 0
    {
      states[|states| - 1]
    }

    function Then(e: Event, d: Db): Trace { Trace(states + [d], events + [e]) }

    predicate ContinuedBy(t: Trace) { states <= t.states && events <= t.events }
  }

  lemma ContinuedTransitive(a: Trace, b: Trace, c: Trace)
    requires a.ContinuedBy(b) && b.ContinuedBy(c)
    ensures a.ContinuedBy(c)
  {
  }

  ghost predicate EventStep(key: Addr, e: Event, d: Db, d': Db) {
    match e
    case Own(c) => Guard(key, c, d) && d' == Effect(key, c, d)
    case Others => Rely(key, d, d')
  }

  ghost predicate StepAt(key: Addr, t: Trace, i: nat)
    requires |t.states| == |t.events| + 1 && i < |t.events|
  {
    EventStep(key, t.events[i], t.states[i], t.states[i + 1])
  }

  ghost predicate IsRun(key: Addr, t: Trace) {
    && |t.states| == |t.events| + 1
    && key in t.states[0].next
    && Inv(t.states[0])
    && forall i :: 0 <= i < |t.events| ==> StepAt(key, t, i)
  }

  lemma RunThen(key: Addr, t: Trace, e: Event, d: Db)
    requires IsRun(key, t) && EventStep(key, e, t.Last(), d)
    ensures IsRun(key, t.Then(e, d))
    ensures t.ContinuedBy(t.Then(e, d))
  {
    var u := t.Then(e, d);
    forall i | 0 <= i < |u.events|
      ensures StepAt(key, u, i)
    {
      if i < |t.events| {
        assert StepAt(key, t, i);
      }
    }
  }

  // ------------------------------------------------------- preservation of Inv

  lemma RowUpdateKeepsInv(db: Db, id: int, row: Tx, lastAttemptId: int)
    requires Inv(db) && id in db.txs && db.lastAttemptId <= lastAttemptId
    requires row.from == db.txs[id].from
    requires var d := db.(lastAttemptId := lastAttemptId, txs := db.txs[id := row]); RowOk(d, id)
    requires row.sequence.None? || row.sequence == db.txs[id].sequence
          || forall j :: j in db.txs && j != id && db.txs[j].from == row.from ==> db.txs[j].sequence != row.sequence
    ensures Inv(db.(lastAttemptId := lastAttemptId, txs := db.txs[id := row]))
  {
  }

  lemma AssignKeepsInv(key: Addr, c: Call, db: Db)
    requires Inv(db) && c.Assign? && Guard(key, c, db)
    ensures Inv(Effect(key, c, db))
  {
    var d := Effect(key, c, db);
    var row := d.txs[c.id];
    var a := db.lastAttemptId + 1;
    assert RowOk(db, c.id);
    assert a in row.attempts && row.attempts == map[a := row.attempts[a]];
    forall j | j in db.txs && j != c.id && db.txs[j].from == row.from
      ensures db.txs[j].sequence != row.sequence
    {
      assert RowOk(db, j);
      assert j !in IdsInState(db, key, InProgress);
      assert !InState(db, key, InProgress, j);
    }
    RowUpdateKeepsInv(db, c.id, row, a);
    assert d == db.(lastAttemptId := a, txs := db.txs[c.id := row]);
  }

  lemma ReplaceKeepsInv(key: Addr, c: Call, db: Db)
    requires Inv(db) && c.Replace? && Guard(key, c, db)
    ensures Inv(Effect(key, c, db))
  {
    var d := Effect(key, c, db);
    var row := d.txs[c.id];
    var a := db.lastAttemptId + 1;
    assert RowOk(db, c.id);
    assert row.attempts == map[a := c.attempt.(id := a)];
    assert a in row.attempts && row.attempts == map[a := row.attempts[a]];
    RowUpdateKeepsInv(db, c.id, row, a);
    assert d == db.(lastAttemptId := a, txs := db.txs[c.id := row]);
  }

  lemma FatalKeepsInv(key: Addr, c: Call, db: Db)
    requires Inv(db) && c.Fatal? && Guard(key, c, db)
    ensures Inv(Effect(key, c, db))
  {
  }

  lemma HandOverKeepsInv(key: Addr, c: Call, db: Db)
    requires Inv(db) && c.HandOver? && Guard(key, c, db)
    ensures Inv(Effect(key, c, db))
  {
    var d := Effect(key, c, db);
    assert RowOk(db, c.id);
    forall k | k in d.next
      ensures HandedInOrder(d.handed[k], d.next[k])
    {
      assert HandedInOrder(db.handed[k], db.next[k]);
    }
    forall j | j in d.txs
      ensures d.txs[j].from in d.next && RowOk(d, j)
    {
      assert RowOk(db, j);
    }
  }

  lemma OwnStepKeepsInv(key: Addr, c: Call, db: Db)
    requires Inv(db) && Guard(key, c, db)
    ensures Inv(Effect(key, c, db))
  {
    match c
    case Assign(_, _) => AssignKeepsInv(key, c, db);
    case Replace(_, _, _) => ReplaceKeepsInv(key, c, db);
    case HandOver(_, _, _, _) => HandOverKeepsInv(key, c, db);
    case Fatal(_) => FatalKeepsInv(key, c, db);
  }

  /** What handing over does: the row is unconfirmed with the attempt that was sent marked as
      broadcast, counter and history move on together, and nothing of the key is being sent. */
  lemma HandOverMeans(key: Addr, d: Db, id: int, attempt: Attempt, broadcastAt: Option<int>, initialBroadcastAt: Option<int>)
    requires Inv(d) && Guard(key, HandOver(id, attempt.id, broadcastAt, initialBroadcastAt), d) && d.txs[id].attempts[attempt.id] == attempt
    ensures var d' := HandOverEffect(d, id, attempt.id, broadcastAt, initialBroadcastAt);
      && d.txs[id].sequence == Some(d.next[key]) && id in d'.txs
      && d'.txs[id] == d.txs[id].(state := Unconfirmed, broadcastAt := broadcastAt, initialBroadcastAt := initialBroadcastAt,
                                  attempts := map[attempt.id := attempt.(state := AttemptBroadcast)])
      && d'.handed[key] == d.handed[key] + [d.next[key]] && d'.next[key] == d.next[key] + 1
      && IdsInState(d', key, InProgress) == {}
  {
  }

  lemma FatalMeans(key: Addr, d: Db, id: int)
    requires Inv(d) && Guard(key, Call.Fatal(id), d)
    ensures var d' := FatalEffect(d, id);
      && d'.handed == d.handed && d'.next == d.next && id in d'.txs
      && d'.txs[id] == d.txs[id].(state := FatalError, sequence := None, attempts := map[], error := true,
                                  broadcastAt := None, initialBroadcastAt := None)
      && IdsInState(d', key, InProgress) == {}
  {
  }

  // -------------------------------------------------------------- whole runs

  ghost predicate KeyKnown(key: Addr, d: Db) { key in d.next && key in d.handed }

  /** One step of a run, whoever makes it: Inv survives, and the list of handed
      over sequences either stays or grows by exactly the next one. */
  lemma StepKeepsInv(key: Addr, e: Event, d: Db, d': Db)
    requires Inv(d) && KeyKnown(key, d) && EventStep(key, e, d, d')
    ensures Inv(d') && KeyKnown(key, d')
    ensures || (d'.handed[key] == d.handed[key] && d'.next[key] == d.next[key])
            || (d'.handed[key] == d.handed[key] + [d.next[key]] && d'.next[key] == d.next[key] + 1)
  {
    if e.Own? {
      OwnStepKeepsInv(key, e.call, d);
    }
  }

  function CountUp(start: int, next: int): seq<int>
    requires start <= next
  {
    seq(next - start, i => start + i)
  }

  lemma CountUpOneMore(start: int, next: int)
    requires start <= next
    ensures CountUp(start, next + 1) == CountUp(start, next) + [next]
  {
  }

  /** Main safety theorem: in every state of every run, with any interference and
      cut off anywhere, the guarantee for the key holds, and since the start of
      the run the Confirmer was handed start, start+1, ..., next-1. */
  lemma {:induction false} RunGuarantee(key: Addr, t: Trace, n: nat)
    requires IsRun(key, t) && n < |t.states|
    ensures Inv(t.states[n]) && KeyKnown(key, t.states[n]) && KeyKnown(key, t.states[0])
    ensures KeyGuarantee(t.states[n], key)
    ensures var start, next := t.states[0].next[key], t.states[n].next[key];
            && start <= next
            && t.states[n].handed[key] == t.states[0].handed[key] + CountUp(start, next)
  {
    if n == 0 {
      assert CountUp(t.states[0].next[key], t.states[0].next[key]) == [];
    } else {
      RunGuarantee(key, t, n - 1);
      var d, d' := t.states[n - 1], t.states[n];
      assert StepAt(key, t, n - 1);
      StepKeepsInv(key, t.events[n - 1], d, d');
      CountUpOneMore(t.states[0].next[key], d.next[key]);
    }
    InvGivesKeyGuarantee(t.states[n], key);
  }

  /** A process that crashes leaves some state of its run behind; whatever the next
      process does from there extends that prefix to a run again. */
  lemma CrashAndRestart(key: Addr, t: Trace, crash: nat, t': Trace)
    requires IsRun(key, t) && crash < |t.states|
    requires IsRun(key, t') && t'.states[0] == t.states[crash]
    ensures IsRun(key, Trace(t.states[..crash] + t'.states, t.events[..crash] + t'.events))
  {
    var u := Trace(t.states[..crash] + t'.states, t.events[..crash] + t'.events);
    forall i | 0 <= i < |u.events|
      ensures StepAt(key, u, i)
    {
      if i < crash {
        assert StepAt(key, t, i);
      } else {
        assert StepAt(key, t', i - crash);
      }
    }
  }

  // ------------------------------------------------------- setting the counter

  /** The keystore's Reset, which the callback of Txm.Reset calls while both services are
      down: the counter is set, whatever the rows say, and counting starts anew. */
  function SetNext(d: Db, key: Addr, n: int): Db {
    d.(next := d.next[key := n], handed := d.handed[key := []])
  }

  ghost predicate NextFits(d: Db, key: Addr, n: int)
    requires key in d.next
  {
    forall id :: id in d.txs && d.txs[id].from == key ==>
      && (d.txs[id].state.InProgress? ==> n == d.next[key])
      && (WithConfirmer(d.txs[id].state) ==> d.txs[id].sequence.Some? && d.txs[id].sequence.value < n)
  }

  /** Setting the counter keeps the invariant exactly when a transaction being sent keeps
      its sequence and everything handed over stays below. */
  lemma SetNextKeepsInvIff(d: Db, key: Addr, n: int)
    requires Inv(d) && key in d.next
    ensures Inv(SetNext(d, key, n)) <==> NextFits(d, key, n)
  {
  }

  /** One transaction of the key is being sent, and with a sequence that is not the next. */
  ghost predicate Mismatched(d: Db, key: Addr, id: int) {
    && KeyKnown(key, d)
    && InState(d, key, InProgress, id) && d.txs[id].sequence != Some(d.next[key])
    && forall j :: InState(d, key, InProgress, j) ==> j == id
  }

  lemma MismatchLasts(key: Addr, e: Event, d: Db, d': Db, id: int)
    requires Mismatched(d, key, id) && EventStep(key, e, d, d') && e != Own(Call.Fatal(id))
    ensures Mismatched(d', key, id) && d'.handed[key] == d.handed[key]
  {
    assert id in IdsInState(d, key, InProgress);
    assert e.Own? ==> e.call.Replace? && e.call.id == id;
    forall j | InState(d', key, InProgress, j)
      ensures j == id
    {
      assert InState(d, key, InProgress, j);
    }
  }

  /** Where the counter was set past a transaction being sent, no run hands anything over
      again: the hand-over fails with a mismatch until the node rejects the transaction. */
  lemma {:induction false} MismatchedForGood(key: Addr, t: Trace, n: nat, id: int)
    requires |t.states| == |t.events| + 1 && n < |t.states| && Mismatched(t.states[0], key, id)
    requires forall i :: 0 <= i < |t.events| ==> StepAt(key, t, i)
    requires forall i :: 0 <= i < n ==> t.events[i] != Own(Call.Fatal(id))
    ensures Mismatched(t.states[n], key, id)
    ensures t.states[n].handed[key] == t.states[0].handed[key]
  {
    if n > 0 {
      MismatchedForGood(key, t, n - 1, id);
      assert StepAt(key, t, n - 1);
      MismatchLasts(key, t.events[n - 1], t.states[n - 1], t.states[n], id);
    }
  }

  /** For instance, a transaction with sequence 0 is being sent when the counter is set to 5. */
  lemma MisfitExample() returns (d: Db)
    ensures Inv(d) && 0 in d.next && d.next[0] == 0 && !NextFits(d, 0, 5)
    ensures !Inv(SetNext(d, 0, 5)) && Mismatched(SetNext(d, 0, 5), 0, 1)
  {
    var attempt := Attempt(1, 1, 100, 10, 2, AttemptInProgress, None, []);
    var tx := Tx(1, 0, 0, 0, InProgress, Some(0), map[1 := attempt], None, None, false);
    d := Db(map[1 := tx], 1, 1, map[0 := 0], map[0 := []]);
    assert 1 in tx.attempts && tx.attempts == map[1 := tx.attempts[1]];
    assert RowOk(d, 1) && InState(d, 0, InProgress, 1);
    SetNextKeepsInvIff(d, 0, 5);
  }

  // ------------------------------------------------------------ MaxInFlight

  /** Handing over and replacing keep the number of transactions in flight,
      failing lowers it, and only an assignment raises it, by one. */
  lemma InFlightAfter(key: Addr, c: Call, db: Db)
    requires Inv(db) && Guard(key, c, db)
    ensures var before, after := InFlightIds(db, key), InFlightIds(Effect(key, c, db), key);
            match c
            case Assign(id, _) => after == before + {id} && id !in before
            case Replace(_, _, _) => after == before
            case HandOver(_, _, _, _) => after == before
            case Fatal(id) => after == before - {id} && id in before
  {
  }

  lemma InFlightUnderRely(key: Addr, d: Db, d': Db)
    requires Rely(key, d, d') && Quiet(key, d, d')
    ensures |InFlightIds(d', key)| <= |InFlightIds(d, key)|
  {
    forall id | id in InFlightIds(d', key)
      ensures id in InFlightIds(d, key)
    {
      if InState(d', key, Unconfirmed, id) {
        assert id in IdsInState(d', key, Unconfirmed);
      }
    }
    SubsetSize(InFlightIds(d', key), InFlightIds(d, key));
  }

  lemma {:induction false} SubsetSize(a: set<int>, b: set<int>)
    requires a <= b
    ensures |a| <= |b|
  {
    assert b == a + (b - a);
  }
}
