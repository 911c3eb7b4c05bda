/** The store and the keystore as the Broadcaster for one key uses them. Every
    method is one atomic call, as the calls of the source are. Before a call takes
    effect the others may act (`env`), and the call may fail (`fails`); both are
    arbitrary, so what is proved holds for every interleaving and every failure. */
module BroadcasterStore {
  import opened Options
  import opened TxTypes
  import opened BroadcasterProtocol

  /** `Violation` stands for the store's own sanity checks; the Broadcaster never runs into one. */
  datatype StoreError = StoreFailed | TxRemoved | SequenceMismatch | Violation

  /** The order in which unstarted transactions are picked. */
  predicate PickedBefore(a: Tx, b: Tx) {
    || a.value < b.value
    || (a.value == b.value && a.createdAt < b.createdAt)
    || (a.value == b.value && a.createdAt == b.createdAt && a.id <= b.id)
  }

  /** The transaction, but for its sequence, is the first unstarted one of the key. */
  ghost predicate IsFirstUnstarted(db: Db, key: Addr, etx: Tx) {
    && InState(db, key, Unstarted, etx.id) && etx.(sequence := None) == db.txs[etx.id].(sequence := None)
    && forall id :: InState(db, key, Unstarted, id) ==> PickedBefore(etx, db.txs[id])
  }

  ghost predicate IsNext(db: Db, ids: set<int>, id: int) {
    id in ids && id in db.txs && forall j :: j in ids && j in db.txs ==> PickedBefore(db.txs[id], db.txs[j])
  }

  lemma {:induction false} NextExists(db: Db, ids: set<int>)
    requires ids <= db.txs.Keys && exists id :: id in ids
    ensures exists id :: IsNext(db, ids, id)
    decreases ids
  {
    var one :| one in ids;
    var rest := ids - {one};
    if exists id :: id in rest {
      NextExists(db, rest);
      var k :| IsNext(db, rest, k);
      var next := if PickedBefore(db.txs[one], db.txs[k]) then one else k;
      forall j | j in ids
        ensures PickedBefore(db.txs[next], db.txs[j])
      {
        assert j == one || j in rest;
      }
      assert IsNext(db, ids, next);
    } else {
      forall j | j in ids
        ensures j == one
      {
        assert j !in rest;
      }
      assert IsNext(db, ids, one);
    }
  }

  class TxStore {
    const key: Addr
    const env: (nat, Db) -> Db
    const fails: nat -> bool
    /** When set: nobody else adds unconfirmed transactions, and at most `limit` are in flight. */
    ghost const bounded: bool
    ghost const limit: nat

    var db: Db
    var clock: nat
    /** Every state committed so far, with who committed it. */
    ghost var trace: Trace
    /** How many calls failed. */
    ghost var failures: nat

    ghost predicate EnvOk() {
      forall n: nat, d: Db :: Rely(key, d, env(n, d)) && (bounded ==> Quiet(key, d, env(n, d)))
    }

    ghost predicate InFlightOk(t: Trace) {
      bounded ==> forall i :: 0 <= i < |t.states| ==> |InFlightIds(t.states[i], key)| <= limit
    }

    ghost predicate Valid()
      reads this
    {
      && EnvOk()
      && IsRun(key, trace)
      && trace.Last() == db
      && Inv(db)
      && KeyKnown(key, db)
      && InFlightOk(trace)
    }

    /** The copy of a transaction in memory agrees with the row being sent. */
    ghost predicate Holds(etx: Tx, attempt: Attempt)
      reads this
    {
      IsSending(etx.id, attempt) && etx.from == key && etx.state.InProgress? && etx.sequence == db.txs[etx.id].sequence
    }

    ghost predicate IsSending(id: int, attempt: Attempt)
      reads this
    {
      && InState(db, key, InProgress, id)
      && attempt.id in db.txs[id].attempts && db.txs[id].attempts[attempt.id] == attempt
      && attempt.state.AttemptInProgress?
    }

    /** The others neither put a transaction in progress nor, when bounded, add
        unconfirmed ones. */
    ghost predicate StillIdle(d: Db, d': Db) {
      && (IdsInState(d, key, InProgress) == {} ==> IdsInState(d', key, InProgress) == {})
      && (bounded ==> |IdsInState(d', key, Unconfirmed)| <= |IdsInState(d, key, Unconfirmed)|)
    }

    /** What became of the transaction since `d`, for the caller. */
    ghost predicate StillInProgress(d: Db, id: int)
      reads this
    {
      && KeyKnown(key, d) && KeyKnown(key, db) && InState(d, key, InProgress, id) && InState(db, key, InProgress, id)
      && db.handed[key] == d.handed[key] && db.next[key] == d.next[key]
      && db.txs[id] == d.txs[id].(attempts := db.txs[id].attempts)
    }

    /** It is unconfirmed with its sequence, which is the next that was handed over; the only
        attempt is the one that was sent, marked as broadcast, and the times are set. */
    ghost predicate WasHandedOver(d: Db, id: int, sequence: Option<int>, attempt: Attempt, at: Option<int>, initial: Option<int>)
      reads this
    {
      && KeyKnown(key, d) && KeyKnown(key, db) && InState(d, key, InProgress, id) && id in db.txs
      && sequence.Some? && db.handed[key] == d.handed[key] + [sequence.value] && db.next[key] == d.next[key] + 1
      && d.txs[id].sequence == sequence
      && db.txs[id] == d.txs[id].(state := Unconfirmed, broadcastAt := at, initialBroadcastAt := initial,
                                  attempts := map[attempt.id := attempt.(state := AttemptBroadcast)])
    }

    /** It failed, and its sequence is free for the next transaction. */
    ghost predicate WasFatal(d: Db, id: int)
      reads this
    {
      && KeyKnown(key, d) && KeyKnown(key, db) && InState(d, key, InProgress, id) && id in db.txs
      && db.handed[key] == d.handed[key] && db.next[key] == d.next[key]
      && db.txs[id] == d.txs[id].(state := FatalError, sequence := None, attempts := map[], error := true,
                                  broadcastAt := None, initialBroadcastAt := None)
    }

    /** The call made at moment c, when `f` calls had failed, ended in an error exactly if it
        was to fail. */
    ghost predicate FailsIff(err: Option<StoreError>, c: nat, f: nat)
      reads this
    {
      err == (if fails(c) then Some(StoreFailed) else None) && failures == if fails(c) then f + 1 else f
    }

    constructor (key: Addr, env: (nat, Db) -> Db, fails: nat -> bool, db: Db, ghost bounded: bool, ghost limit: nat)
      requires forall n: nat, d: Db :: Rely(key, d, env(n, d)) && (bounded ==> Quiet(key, d, env(n, d)))
      requires Inv(db) && KeyKnown(key, db)
      requires bounded ==> |InFlightIds(db, key)| <= limit
      ensures Valid() && this.key == key && this.db == db && trace == Trace([db], [])
      ensures this.bounded == bounded && this.limit == limit
    {
      this.key, this.env, this.fails, this.db := key, env, fails, db;
      this.bounded, this.limit := bounded, limit;
      this.clock, this.trace, this.failures := 0, Trace([db], []), 0;
    }

    /** The others act, and it is decided whether the call that follows fails. */
    method Settle() returns (failed: bool)
      requires Valid()
      modifies this
      ensures Valid() && old(trace).ContinuedBy(trace)
      ensures Rely(key, old(db), db)
      ensures bounded ==> Quiet(key, old(db), db)
      ensures StillIdle(old(db), db)
      ensures failed == fails(old(clock)) && failures == if failed then old(failures) + 1 else old(failures)
    {
      var d := env(clock, db);
      assert Rely(key, db, d);
      RunThen(key, trace, Others, d);
      if bounded {
        InFlightUnderRely(key, db, d);
        SubsetSize(IdsInState(d, key, Unconfirmed), IdsInState(db, key, Unconfirmed));
      }
      assert IdsInState(d, key, InProgress) <= IdsInState(db, key, InProgress);
      trace := trace.Then(Others, d);
      db := d;
      failed := fails(clock);
      failures := if failed then failures + 1 else failures;
      clock := clock + 1;
    }

    /** Commits the effect of one of the Broadcaster's own calls. */
    method Commit(ghost c: Call, d: Db)
      requires Valid() && Guard(key, c, db) && d == Effect(key, c, db)
      requires bounded && c.Assign? ==> |InFlightIds(db, key)| < limit
      modifies this
      ensures Valid() && old(trace).ContinuedBy(trace)
      ensures db == d && failures == old(failures)
    {
      RunThen(key, trace, Own(c), d);
      OwnStepKeepsInv(key, c, db);
      InFlightAfter(key, c, db);
      trace := trace.Then(Own(c), d);
      db := d;
    }

    method GetTxInProgress() returns (err: Option<StoreError>, found: Option<(Tx, Attempt)>)
      requires Valid()
      modifies this
      ensures Valid() && old(trace).ContinuedBy(trace) && Rely(key, old(db), db)
      ensures err.None? && found.None? ==> IdsInState(db, key, InProgress) == {}
      ensures found.Some? ==> Holds(found.value.0, found.value.1)
      ensures FailsIff(err, old(clock), old(failures))
      ensures err.Some? ==> found.None?
    {
      var failed := Settle();
      if failed {
        return Some(StoreFailed), None;
      }
      var ids := IdsInState(db, key, InProgress);
      if ids == {} {
        return None, None;
      }
      var id :| id in ids;
      var tx := db.txs[id];
      assert RowOk(db, id);
      if |tx.attempts| != 1 {
        return Some(Violation), None;
      }
      var a :| a in tx.attempts;
      if !tx.attempts[a].state.AttemptInProgress? {
        return Some(Violation), None;
      }
      return None, Some((tx, tx.attempts[a]));
    }

    method CountUnconfirmedTransactions() returns (err: Option<StoreError>, count: nat)
      requires Valid()
      modifies this
      ensures Valid() && old(trace).ContinuedBy(trace) && Rely(key, old(db), db)
      ensures StillIdle(old(db), db)
      ensures err.None? ==> count == |IdsInState(db, key, Unconfirmed)|
      ensures FailsIff(err, old(clock), old(failures))
    {
      var failed := Settle();
      err := if failed then Some(StoreFailed) else None;
      count := |IdsInState(db, key, Unconfirmed)|;
    }

    method CountUnstartedTransactions() returns (err: Option<StoreError>, count: nat)
      requires Valid()
      modifies this
      ensures Valid() && old(trace).ContinuedBy(trace) && Rely(key, old(db), db)
      ensures StillIdle(old(db), db)
      ensures err.None? ==> count == |IdsInState(db, key, Unstarted)|
      ensures FailsIff(err, old(clock), old(failures))
    {
      var failed := Settle();
      err := if failed then Some(StoreFailed) else None;
      count := |IdsInState(db, key, Unstarted)|;
    }

    /** No row is reported as None without an error, the source's sql.ErrNoRows. */
    method FindNextUnstartedTransactionFromAddress() returns (err: Option<StoreError>, found: Option<Tx>)
      requires Valid()
      modifies this
      ensures Valid() && old(trace).ContinuedBy(trace) && Rely(key, old(db), db)
      ensures StillIdle(old(db), db)
      ensures found.Some? ==> err.None? && InState(db, key, Unstarted, found.value.id) && found.value == db.txs[found.value.id]
      ensures found.Some? ==> forall id :: InState(db, key, Unstarted, id) ==> PickedBefore(found.value, db.txs[id])
      ensures err.None? && found.None? ==> IdsInState(db, key, Unstarted) == {}
      ensures FailsIff(err, old(clock), old(failures))
    {
      var failed := Settle();
      if failed {
        return Some(StoreFailed), None;
      }
      var ids := IdsInState(db, key, Unstarted);
      if ids == {} {
        return None, None;
      }
      NextExists(db, ids);
      assert exists id :: id in ids && IsNext(db, ids, id);
      var id :| id in ids && forall j :: j in ids && j in db.txs ==> PickedBefore(db.txs[id], db.txs[j]);
      forall j | InState(db, key, Unstarted, j)
        ensures PickedBefore(db.txs[id], db.txs[j])
      {
        assert j in ids;
      }
      assert RowOk(db, id);
      return None, Some(db.txs[id]);
    }

    /** The keystore's counter; the query sees one committed state like any other. */
    method NextSequence() returns (err: Option<StoreError>, sequence: int)
      requires Valid()
      modifies this
      ensures Valid() && old(trace).ContinuedBy(trace) && Rely(key, old(db), db)
      ensures StillIdle(old(db), db)
      ensures err.None? ==> sequence == db.next[key]
      ensures FailsIff(err, old(clock), old(failures))
    {
      var failed := Settle();
      err := if failed then Some(StoreFailed) else None;
      sequence := db.next[key];
    }

    /** The transaction may have been pruned since it was looked up: then inserting
        its attempt violates the foreign key, and nothing is changed. */
    method UpdateTxUnstartedToInProgress(etx: Tx, attempt: Attempt)
      returns (err: Option<StoreError>, etx': Tx, attempt': Attempt)
      requires Valid()
      requires IdsInState(db, key, InProgress) == {}
      requires etx.id !in db.txs || (InState(db, key, Unstarted, etx.id) && db.txs[etx.id] == etx.(sequence := None))
      requires etx.id <= db.lastTxId && etx.state.Unstarted? && etx.from == key && etx.sequence == Some(db.next[key])
      requires attempt.txId == etx.id && attempt.state.AttemptInProgress?
      requires bounded ==> |IdsInState(db, key, Unconfirmed)| < limit
      modifies this
      ensures Valid() && old(trace).ContinuedBy(trace)
      ensures err.Some? ==> IdsInState(db, key, InProgress) == {}
      ensures err.None? ==>
        && Holds(etx', attempt') && attempt' == attempt.(id := attempt'.id)
        && etx'.id == etx.id && etx' == db.txs[etx'.id] == etx.(state := InProgress, attempts := map[attempt'.id := attempt'])
      ensures if fails(old(clock)) then err == Some(StoreFailed) else err == if etx.id in db.txs then None else Some(TxRemoved)
      ensures failures == if fails(old(clock)) then old(failures) + 1 else old(failures)
    {
      etx', attempt' := etx, attempt;
      if etx.sequence.None? || !etx.state.Unstarted? || !attempt.state.AttemptInProgress? {
        return Some(Violation), etx', attempt';
      }
      ghost var before := db;
      var failed := Settle();
      assert IdsInState(db, key, InProgress) <= IdsInState(before, key, InProgress);
      if failed {
        return Some(StoreFailed), etx', attempt';
      }
      if etx.id !in db.txs {
        return Some(TxRemoved), etx', attempt';
      }
      assert InState(db, key, Unstarted, etx.id);
      if bounded {
        assert InFlightIds(db, key) <= IdsInState(before, key, Unconfirmed) by {
          forall id | id in InFlightIds(db, key) ensures id in IdsInState(before, key, Unconfirmed) {
            assert id !in IdsInState(db, key, InProgress);
            assert id in IdsInState(db, key, Unconfirmed);
          }
        }
        SubsetSize(InFlightIds(db, key), IdsInState(before, key, Unconfirmed));
      }
      ghost var t := trace;
      Commit(Assign(etx.id, attempt), AssignEffect(db, etx.id, etx.sequence.value, attempt));
      ContinuedTransitive(old(trace), t, trace);
      etx', attempt' := db.txs[etx.id], attempt.(id := db.lastAttemptId);
      err := None;
    }

    method SaveReplacementInProgressAttempt(oldAttempt: Attempt, replacement: Attempt, etx: Tx)
      returns (err: Option<StoreError>, replacement': Attempt)
      requires Valid() && Holds(etx, oldAttempt)
      requires replacement.txId == etx.id && replacement.state.AttemptInProgress?
      modifies this
      ensures Valid() && old(trace).ContinuedBy(trace)
      ensures StillInProgress(old(db), etx.id)
      ensures if err.None? then Holds(etx, replacement') && replacement' == replacement.(id := db.lastAttemptId)
              else Holds(etx, oldAttempt)
      ensures FailsIff(err, old(clock), old(failures))
    {
      replacement' := replacement;
      assert RowOk(db, etx.id);
      if !oldAttempt.state.AttemptInProgress? || !replacement.state.AttemptInProgress? || oldAttempt.id == 0 {
        return Some(Violation), replacement';
      }
      var failed := Settle();
      if failed {
        return Some(StoreFailed), replacement';
      }
      ghost var t := trace;
      Commit(Replace(etx.id, oldAttempt.id, replacement), ReplaceEffect(db, etx.id, oldAttempt.id, replacement));
      ContinuedTransitive(old(trace), t, trace);
      replacement' := replacement.(id := db.lastAttemptId);
      err := None;
    }

    /** One database transaction: the keystore's counter is advanced only if it still
        equals the transaction's sequence, otherwise everything is rolled back. */
    method UpdateTxAttemptInProgressToBroadcast(etx: Tx, attempt: Attempt) returns (err: Option<StoreError>)
      requires Valid() && Holds(etx, attempt)
      requires etx.broadcastAt.Some? && etx.initialBroadcastAt.Some?
      modifies this
      ensures Valid() && old(trace).ContinuedBy(trace)
      ensures err.None? ==> IdsInState(db, key, InProgress) == {}
      ensures if err.None? then WasHandedOver(old(db), etx.id, etx.sequence, attempt, etx.broadcastAt, etx.initialBroadcastAt)
              else StillInProgress(old(db), etx.id) && Holds(etx, attempt)
      ensures FailsIff(err, old(clock), old(failures))
    {
      assert RowOk(db, etx.id);
      if etx.broadcastAt.None? || etx.initialBroadcastAt.None? || !etx.state.InProgress? || !attempt.state.AttemptInProgress? {
        return Some(Violation);
      }
      var failed := Settle();
      if failed {
        return Some(StoreFailed);
      }
      assert RowOk(db, etx.id);
      if etx.sequence != Some(db.next[key]) {
        return Some(SequenceMismatch);
      }
      HandOverMeans(key, db, etx.id, attempt, etx.broadcastAt, etx.initialBroadcastAt);
      ghost var t := trace;
      Commit(HandOver(etx.id, attempt.id, etx.broadcastAt, etx.initialBroadcastAt),
             HandOverEffect(db, etx.id, attempt.id, etx.broadcastAt, etx.initialBroadcastAt));
      ContinuedTransitive(old(trace), t, trace);
      err := None;
    }

    method UpdateTxFatalError(etx: Tx) returns (err: Option<StoreError>)
      requires Valid() && InState(db, key, InProgress, etx.id) && etx.state.InProgress? && etx.error
      modifies this
      ensures Valid() && old(trace).ContinuedBy(trace)
      ensures err.None? ==> IdsInState(db, key, InProgress) == {}
      ensures if err.None? then WasFatal(old(db), etx.id) else StillInProgress(old(db), etx.id)
      ensures err.Some? ==> db.txs[etx.id] == old(db).txs[etx.id]
      ensures FailsIff(err, old(clock), old(failures))
    {
      if !etx.state.InProgress? || !etx.error {
        return Some(Violation);
      }
      var failed := Settle();
      if failed {
        return Some(StoreFailed);
      }
      FatalMeans(key, db, etx.id);
      ghost var t := trace;
      Commit(Call.Fatal(etx.id), FatalEffect(db, etx.id));
      ContinuedTransitive(old(trace), t, trace);
      err := None;
    }
  }
}
