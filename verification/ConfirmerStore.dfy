/** The store as the Confirmer uses it. As in BroadcasterStore, each method is one
    atomic call; the others act before it (`env`), and it may fail (`fails`). */
module ConfirmerStore {
  import opened Options
  import opened TxTypes
  import opened ConfirmerProtocol
  import opened ConfirmerRows
  import opened ConfirmerRuns
  import opened AttemptListing
  import opened RebroadcastQueue
  import opened ConfirmerReceipts

  /** A transaction loaded earlier still has the attempts it was loaded with. */
  ghost predicate FreshIn(db: Db, e: Loaded) {
    && Care(db, e.tx.id)
    && (e.tx.id in db.txs ==> db.txs[e.tx.id].from == e.tx.from && Lists(e.attempts, db.txs[e.tx.id].attempts))
    && forall k :: 0 <= k < |e.attempts| ==> e.attempts[k].txId == e.tx.id
  }

  /** The attempt in memory is the one that is unsent in the database. */
  ghost predicate SendingIn(db: Db, attempt: Attempt) {
    && attempt.state.AttemptInProgress? && attempt.id != 0
    && Care(db, attempt.txId)
    && (attempt.txId in db.txs ==> Unsent(db.txs[attempt.txId], attempt.id) && db.txs[attempt.txId].attempts[attempt.id] == attempt)
  }

  /** The attempt may be saved as in_progress: none of its transaction is, and it is dearer
      than the others, of which there is one. */
  ghost predicate ToBeSent(db: Db, attempt: Attempt) {
    && Care(db, attempt.txId)
    && (attempt.txId in db.txs ==>
          var tx := db.txs[attempt.txId];
          && NoneUnsent(tx) && !Bare(tx)
          && (forall a :: a in tx.attempts && a != attempt.id ==> tx.attempts[a].fee < attempt.fee)
          && (attempt.id in tx.attempts ==> tx.attempts[attempt.id].fee == attempt.fee))
  }

  lemma StillToBeSent(start: Db, d: Db, attempt: Attempt)
    requires Inv(d) && Framed(start, d, {}) && ToBeSent(start, attempt) && attempt.txId in d.txs
    requires attempt.id != 0 ==> attempt.id in d.txs[attempt.txId].attempts
    ensures attempt.txId in start.txs && SameForUs(start.txs[attempt.txId], d.txs[attempt.txId])
    ensures if attempt.id == 0 then OwnGuard(InsertAttempt(attempt.txId, attempt), d)
            else OwnGuard(ResendAttempt(attempt.txId, attempt.id, attempt.broadcastBefore), d)
  {
    var tx := d.txs[attempt.txId];
    assert RowOk(d, attempt.txId);
    assert SameForUs(start.txs[attempt.txId], tx);
    assert forall a :: Unsent(tx, a) ==> Unsent(start.txs[attempt.txId], a);
  }

  lemma StillSending(start: Db, d: Db, attempt: Attempt)
    requires Framed(start, d, {}) && SendingIn(start, attempt) && attempt.txId in d.txs
    ensures attempt.txId in start.txs && SameForUs(start.txs[attempt.txId], d.txs[attempt.txId])
    ensures InCare(d, attempt.txId) && SendingIn(d, attempt)
  {
  }

  lemma NewIdIsNew(d: Db, id: int)
    requires Inv(d) && id in d.txs
    ensures NewId(d) !in d.txs[id].attempts
  {
  }

  lemma StillMarkable(start: Db, d: Db, e: Loaded)
    requires StateOk(d) && Framed(start, d, {}) && FreshIn(start, e) && e.attempts != [] && !RefusedAsLoaded(e) && e.tx.id in d.txs
    ensures e.tx.id in start.txs && SameForUs(start.txs[e.tx.id], d.txs[e.tx.id])
    ensures OwnGuard(OwnCall.MarkForRebroadcast(e.tx.id, e.attempts[0].id), d)
  {
  }

  lemma MarkedAlike(found: Tx, tx: Tx, a: int)
    requires SameForUs(found, tx) && a in tx.attempts && tx.attempts[a].id == a
    ensures ToBeResent(found, RebroadcastRow(tx, a), a)
  {
  }

  /** What the store's checks look at when a loaded transaction is to be marked. */
  predicate RefusedAsLoaded(e: Loaded)
    requires e.attempts != []
  {
    !e.tx.state.Confirmed? || !e.attempts[0].state.AttemptBroadcast?
  }

  predicate MissesReceipt(tx: Tx) {
    tx.state.ConfirmedMissingReceipt? && exists a :: a in tx.attempts
  }

  /** The dearest attempt of a transaction that is missing its receipt. */
  ghost predicate IsMissing(db: Db, attempt: Attempt) {
    && attempt.txId in db.txs && MissesReceipt(db.txs[attempt.txId])
    && IsDearest(db.txs[attempt.txId], attempt.id) && db.txs[attempt.txId].attempts[attempt.id] == attempt
  }

  /** One for each such transaction. */
  ghost predicate AreMissing(db: Db, attempts: seq<Attempt>) {
    && (forall k :: 0 <= k < |attempts| ==> IsMissing(db, attempts[k]))
    && (forall j, k :: 0 <= j < k < |attempts| ==> attempts[j].txId != attempts[k].txId)
    && forall id :: id in db.txs && MissesReceipt(db.txs[id]) ==> exists k :: 0 <= k < |attempts| && attempts[k].txId == id
  }

  lemma FirstLoadedIsDearest(db: Db, e: Loaded)
    requires StateOk(db) && FreshIn(db, e) && e.tx.id in db.txs && MissesReceipt(db.txs[e.tx.id])
    ensures |e.attempts| > 0 && e.attempts[0].txId == e.tx.id && IsMissing(db, e.attempts[0])
  {
  }

  /** `Violation` stands for the store's checks of the states it is handed. */
  datatype StoreError = StoreFailed | NoRow | Violation

  /** An attempt as the receipt query returns it. */
  ghost predicate IsPending(txs: map<int, Tx>, p: Pending) {
    var id := p.attempt.txId;
    id in txs && MayBeMined(txs[id], p.attempt.id)
    && p == Pending(txs[id].attempts[p.attempt.id], txs[id].from, txs[id].sequence.value)
  }

  method ListForReceipts(txs: map<int, Tx>) returns (attempts: seq<Pending>)
    requires forall id, a :: id in txs && a in txs[id].attempts ==> txs[id].attempts[a].id == a && txs[id].attempts[a].txId == id
    requires forall id :: id in txs && AwaitsReceipt(txs[id]) ==> txs[id].sequence.Some?
    ensures DearestFirst(attempts)
    ensures forall k :: 0 <= k < |attempts| ==> IsPending(txs, attempts[k])
    ensures forall p :: IsPending(txs, p) ==> p in attempts
  {
    attempts := [];
    var all := set id, a | id in txs && AwaitsReceipt(txs[id])
                         && a in txs[id].attempts && !txs[id].attempts[a].state.AttemptInsufficientFunds?
                 :: Pending(txs[id].attempts[a], txs[id].from, txs[id].sequence.value);
    forall p
      ensures p in all <==> IsPending(txs, p)
    {
    }
    var rest := all;
    while exists p :: p in rest
      invariant rest <= all
      invariant DearestFirst(attempts)
      invariant forall k, p :: 0 <= k < |attempts| && p in rest ==> NotAfter(attempts[k], p)
      invariant forall k :: 0 <= k < |attempts| ==> attempts[k] in all
      invariant forall p :: p in all ==> p in rest || p in attempts
      decreases rest
    {
      FirstExists(rest);
      assert exists p :: p in rest && IsFirst(p, rest);
      var next :| next in rest && forall p :: p in rest ==> NotAfter(next, p);
      ghost var was := attempts;
      attempts := attempts + [next];
      rest := rest - {next};
      assert forall p :: p in was ==> p in attempts;
      assert attempts[|was|] == next;
    }
  }

  ghost predicate IsFirst(p: Pending, s: set<Pending>) {
    p in s && forall q :: q in s ==> NotAfter(p, q)
  }

  lemma {:induction false} FirstExists(s: set<Pending>)
    requires exists p :: p in s
    ensures exists p :: IsFirst(p, s)
    decreases s
  {
    var one :| one in s;
    var rest := s - {one};
    if exists p :: p in rest {
      FirstExists(rest);
      var p :| IsFirst(p, rest);
      var first := if NotAfter(one, p) then one else p;
      forall q | q in s
        ensures NotAfter(first, q)
      {
        if q != one {
          NotAfterTransitive(first, p, q);
        }
      }
      assert IsFirst(first, s);
    } else {
      forall q | q in s
        ensures NotAfter(one, q)
      {
        assert q !in rest;
      }
      assert IsFirst(one, s);
    }
  }

  lemma NotAfterTransitive(p: Pending, q: Pending, r: Pending)
    requires NotAfter(p, q) && NotAfter(q, r)
    ensures NotAfter(p, r)
  {
  }

  class ConfirmerStore {
    const env: (nat, Db) -> Db
    const fails: nat -> bool
    var db: Db
    var clock: nat
    ghost var trace: ConfirmerTrace
    /** How many calls ended in an error of the database, or for want of the row. */
    ghost var failures: nat

    ghost predicate EnvOk() {
      forall n: nat, d: Db :: ConfirmerRely(d, env(n, d))
    }

    ghost predicate Valid()
      reads this
    {
      EnvOk() && ConfirmerRun(trace) && trace.Last() == db && StateOk(db)
    }

    constructor (env: (nat, Db) -> Db, fails: nat -> bool, db: Db)
      requires forall n: nat, d: Db :: ConfirmerRely(d, env(n, d))
      requires StateOk(db)
      ensures Valid() && this.db == db && trace == ConfirmerTrace([db], [])
    {
      this.env, this.fails, this.db := env, fails, db;
      this.clock, this.trace, this.failures := 0, ConfirmerTrace([db], []), 0;
    }

    /** The store went on from an earlier moment, at which `f` calls had failed. */
    ghost predicate After(t: ConfirmerTrace, c: nat, f: nat)
      reads this
    {
      Valid() && t.ContinuedBy(trace) && c <= clock && f <= failures
    }

    /** The call made at moment c, when `f` calls had failed, ended in an error exactly if it
        was to fail. */
    ghost predicate FailsIff(err: Option<StoreError>, c: nat, f: nat)
      reads this
    {
      err == (if fails(c) then Some(StoreFailed) else None) && failures == if fails(c) then f + 1 else f
    }

    ghost predicate Sending(attempt: Attempt)
      reads this
    {
      SendingIn(db, attempt)
    }

    ghost predicate OfKey(key: Addr, id: int)
      reads this
    {
      id in db.txs ==> db.txs[id].from == key
    }

    ghost predicate Clear(id: int)
      reads this
    {
      id in db.txs ==> forall a :: !Unsent(db.txs[id], a)
    }

    ghost predicate Fresh(e: Loaded)
      reads this
    {
      FreshIn(db, e)
    }

    method Settle() returns (failed: bool)
      requires Valid()
      modifies this
      ensures After(old(trace), old(clock), old(failures))
      ensures Framed(old(db), db, {})
      ensures clock == old(clock) + 1 && failed == fails(old(clock))
      ensures failures == if failed then old(failures) + 1 else old(failures)
    {
      var d := env(clock, db);
      assert ConfirmerRely(db, d);
      ConfirmerRunThen(trace, Theirs, d);
      RelyIsFramed(db, d);
      trace := trace.Then(Theirs, d);
      db := d;
      failed := fails(clock);
      failures := if failed then failures + 1 else failures;
      clock := clock + 1;
    }

    /** Commits one of the Confirmer's own calls. */
    method Commit(c: OwnCall)
      requires Valid() && OwnGuard(c, db)
      modifies this`db, this`trace
      ensures After(old(trace), old(clock), old(failures))
      ensures db == OwnEffect(c, old(db))
    {
      OwnCallKeepsState(c, db, 0);
      ghost var d := OwnEffect(c, db);
      ConfirmerRunThen(trace, Mine(c), d);
      trace := trace.Then(Mine(c), d);
      db := OwnEffect(c, db);
    }

    /** The same for a call that writes one row, seen from before the others acted. */
    method CommitRow(c: OwnCall, ghost from: ConfirmerTrace, ghost start: Db, ghost row: Tx)
      requires Valid() && WritesOneRow(c) && OwnGuard(c, db) && from.ContinuedBy(trace) && Framed(start, db, {})
      requires OwnEffect(c, db).txs[c.id] == row
      modifies this`db, this`trace
      ensures After(from, old(clock), old(failures))
      ensures c.id in db.txs && db.txs[c.id] == row && Framed(start, db, {c.id})
    {
      ghost var before, t := db, trace;
      Commit(c);
      ContinuedTransitive(from, t, trace);
      RowWriteIsFramed(before, c.id, db.txs[c.id], db.lastAttemptId);
      FramedTransitive(start, before, db, {c.id});
    }

    // ------------------------------------------------------------- attempts

    /** The in_progress attempts of the key's transactions in the Confirmer's care. */
    method GetInProgressTxAttempts(key: Addr) returns (err: Option<StoreError>, attempts: seq<Attempt>)
      requires Valid()
      modifies this
      ensures After(old(trace), old(clock), old(failures)) && Framed(old(db), db, {})
      ensures err.None? ==> forall id, a :: Leftover(db, key, id, a) ==>
                exists k :: 0 <= k < |attempts| && attempts[k].txId == id && attempts[k] == db.txs[id].attempts[a]
      ensures forall k :: 0 <= k < |attempts| ==> Sending(attempts[k]) && attempts[k].txId in UnsentIds(db, key)
      ensures forall j, k :: 0 <= j < k < |attempts| ==> attempts[j].txId != attempts[k].txId
      ensures FailsIff(err, old(clock), old(failures))
    {
      var failed := Settle();
      attempts := [];
      if failed {
        return Some(StoreFailed), attempts;
      }
      var unsent := UnsentIds(db, key);
      var ids := ListIds(unsent);
      for i := 0 to |ids|
        modifies {}
        invariant |attempts| == i
        invariant forall k :: 0 <= k < i ==> attempts[k].txId == ids[k] && Sending(attempts[k])
      {
        assert ids[i] in unsent;
        var tx := db.txs[ids[i]];
        assert HasUnsent(tx);
        var a :| a in tx.attempts && tx.attempts[a].state.AttemptInProgress?;
        assert RowOk(db, ids[i]);
        attempts := attempts + [tx.attempts[a]];
      }
      forall id, a | Leftover(db, key, id, a)
        ensures exists k :: 0 <= k < |attempts| && attempts[k].txId == id && attempts[k] == db.txs[id].attempts[a]
      {
        assert HasUnsent(db.txs[id]) && id in unsent;
        var k :| 0 <= k < |ids| && ids[k] == id;
        PricedMeansOneUnsent(db, id);
        assert attempts[k].txId == id && attempts[k].id == a;
      }
      forall k | 0 <= k < |attempts|
        ensures attempts[k].txId in unsent
      {
        assert ids[k] in unsent;
      }
      err := None;
    }

    method LoadTxAttempts(id: int) returns (err: Option<StoreError>, list: seq<Attempt>)
      requires Valid()
      modifies this
      ensures After(old(trace), old(clock), old(failures)) && Framed(old(db), db, {})
      ensures err.None? ==> if id in db.txs then Lists(list, db.txs[id].attempts) else list == []
      ensures FailsIff(err, old(clock), old(failures))
    {
      var failed := Settle();
      list := [];
      if failed {
        return Some(StoreFailed), list;
      }
      if id in db.txs {
        assert RowOk(db, id);
        list := ListAttempts(db.txs[id].attempts);
      }
      err := None;
    }

    /** A new attempt is inserted, which fails if the transaction is gone; a saved one
        is updated, which fails if no row matches. */
    method SaveInProgressAttempt(attempt: Attempt) returns (err: Option<StoreError>, saved: Attempt)
      requires Valid() && ToBeSent(db, attempt)
      modifies this
      ensures After(old(trace), old(clock), old(failures)) && Framed(old(db), db, {attempt.txId})
      ensures err.None? ==>
        && Sending(saved) && saved.txId == attempt.txId && saved.txId in db.txs && saved.fee == attempt.fee
        && attempt.txId in old(db).txs && IsSaved(old(db).txs[attempt.txId], db.txs[attempt.txId], attempt, saved)
      ensures !attempt.state.AttemptInProgress? <==> err == Some(Violation)
      ensures err.Some? && err != Some(Violation) ==>
        && failures == old(failures) + 1
        && (fails(old(clock)) || attempt.txId !in db.txs || attempt.id !in db.txs[attempt.txId].attempts)
    {
      saved := attempt;
      if !attempt.state.AttemptInProgress? {
        return Some(Violation), saved;
      }
      ghost var start := db;
      var failed := Settle();
      if failed {
        return Some(StoreFailed), saved;
      }
      if attempt.id == 0 && attempt.txId !in db.txs {
        failures := failures + 1;
        return Some(StoreFailed), saved;
      }
      if attempt.id != 0 && (attempt.txId !in db.txs || attempt.id !in db.txs[attempt.txId].attempts) {
        failures := failures + 1;
        return Some(NoRow), saved;
      }
      StillToBeSent(start, db, attempt);
      ghost var found, tx := start.txs[attempt.txId], db.txs[attempt.txId];
      if attempt.id == 0 {
        saved := attempt.(id := NewId(db));
        CommitRow(InsertAttempt(attempt.txId, attempt), old(trace), start, WithAttempt(tx, saved));
      } else {
        saved := db.txs[attempt.txId].attempts[attempt.id].(
          id := attempt.id, state := AttemptInProgress, broadcastBefore := attempt.broadcastBefore);
        CommitRow(ResendAttempt(attempt.txId, attempt.id, attempt.broadcastBefore), old(trace), start, WithAttempt(tx, saved));
      }
      SavedAsIs(found, tx, db.txs[attempt.txId], attempt, saved);
      err := None;
    }

    /** Deletes the old attempt and inserts the new one in one database transaction. */
    method SaveReplacementInProgressAttempt(oldAttempt: Attempt, replacement: Attempt) returns (err: Option<StoreError>, saved: Attempt)
      requires Valid() && Sending(oldAttempt) && oldAttempt.fee < replacement.fee
      requires replacement.txId == oldAttempt.txId && replacement.state.AttemptInProgress?
      modifies this
      ensures After(old(trace), old(clock), old(failures)) && Framed(old(db), db, {oldAttempt.txId})
      ensures err.None? ==> Sending(saved) && saved.txId == replacement.txId && saved.txId in db.txs
      ensures err.None? ==>
        && saved == replacement.(id := saved.id)
        && oldAttempt.txId in old(db).txs && IsReplaced(old(db).txs[oldAttempt.txId], db.txs[oldAttempt.txId], oldAttempt.id, saved)
      ensures err.Some? ==> Care(db, oldAttempt.txId)
      ensures err.Some? ==>
        err == Some(StoreFailed) && failures == old(failures) + 1 && (fails(old(clock)) || oldAttempt.txId !in db.txs)
    {
      saved := replacement;
      if !oldAttempt.state.AttemptInProgress? || !replacement.state.AttemptInProgress? || oldAttempt.id == 0 {
        return Some(Violation), saved;
      }
      ghost var start := db;
      var failed := Settle();
      if failed {
        return Some(StoreFailed), saved;
      }
      if replacement.txId !in db.txs {
        failures := failures + 1;
        return Some(StoreFailed), saved;
      }
      StillSending(start, db, oldAttempt);
      NewIdIsNew(db, oldAttempt.txId);
      ghost var rest := WithoutAttempt(db.txs[replacement.txId], oldAttempt.id);
      saved := replacement.(id := NewId(db));
      CommitRow(ReplaceAttempt(replacement.txId, oldAttempt.id, replacement), old(trace), start, WithAttempt(rest, saved));
      err := None;
    }

    /** SaveSentAttempt, SaveInsufficientFundsAttempt, SaveConfirmedMissingReceiptAttempt
        and DeleteInProgressAttempt: on a deleted row they change nothing. */
    method FinishAttempt(attempt: Attempt, v: Verdict, now: int) returns (err: Option<StoreError>)
      requires Valid() && Sending(attempt)
      modifies this
      ensures After(old(trace), old(clock), old(failures)) && Framed(old(db), db, {attempt.txId})
      ensures err.None? ==> Clear(attempt.txId)
      ensures err.None? && attempt.txId in db.txs ==>
                attempt.txId in old(db).txs && AfterVerdict(old(db).txs[attempt.txId], db.txs[attempt.txId], attempt.id, v)
      ensures err.None? && attempt.txId in db.txs && !v.Deleted? && db.txs[attempt.txId].broadcastAt.Some? ==>
                now <= db.txs[attempt.txId].broadcastAt.value
      ensures FailsIff(err, old(clock), old(failures))
    {
      if !attempt.state.AttemptInProgress? {
        return Some(Violation);
      }
      ghost var start := db;
      var failed := Settle();
      if failed {
        return Some(StoreFailed);
      }
      if attempt.txId in db.txs {
        StillSending(start, db, attempt);
        assert RowPriced(db.txs[attempt.txId]);
        FinishedAlike(start.txs[attempt.txId], db.txs[attempt.txId], attempt.id, v, now);
        CommitRow(OwnCall.FinishAttempt(attempt.txId, attempt.id, v, now), old(trace), start,
                  FinishedRow(db.txs[attempt.txId], attempt.id, v, now));
      }
      err := None;
    }

    // -------------------------------------------------------------- queries

    /** Loads transactions with their attempts, by sequence. */
    method LoadAll(ids: set<int>) returns (list: seq<Loaded>)
      requires Valid() && forall id :: id in ids ==> id in db.txs && WithConfirmer(db.txs[id].state)
      ensures forall k :: 0 <= k < |list| ==> list[k].tx.id in ids && list[k].tx == db.txs[list[k].tx.id] && Fresh(list[k])
      ensures forall id :: id in ids ==> exists k :: 0 <= k < |list| && list[k].tx.id == id
      ensures DistinctIds(list) && Sorted(list)
    {
      var order := ListIds(ids);
      list := [];
      for i := 0 to |order|
        invariant |list| == i
        invariant forall k :: 0 <= k < i ==> list[k].tx.id == order[k] && list[k].tx == db.txs[order[k]] && Fresh(list[k])
      {
        assert order[i] in ids;
        assert RowOk(db, order[i]);
        var attempts := ListAttempts(db.txs[order[i]].attempts);
        list := list + [Loaded(db.txs[order[i]], attempts)];
      }
      ghost var unsorted := list;
      list := SortBySequence(list);
      SortedAlike(unsorted, list);
      forall k | 0 <= k < |list|
        ensures list[k].tx.id in ids && list[k].tx == db.txs[list[k].tx.id] && Fresh(list[k])
      {
        assert list[k] in list;
        var j :| 0 <= j < |unsorted| && unsorted[j] == list[k];
      }
      forall id | id in ids
        ensures exists k :: 0 <= k < |list| && list[k].tx.id == id
      {
        var k :| 0 <= k < |order| && order[k] == id;
        assert unsorted[k] in list;
      }
    }

    method FindTxsRequiringResubmissionDueToInsufficientFunds(key: Addr) returns (err: Option<StoreError>, list: seq<Loaded>)
      requires Valid()
      modifies this
      ensures After(old(trace), old(clock), old(failures)) && Framed(old(db), db, {})
      ensures err.Some? ==> list == []
      ensures Sorted(list) && DistinctIds(list)
      ensures forall k :: 0 <= k < |list| ==> Fresh(list[k]) && list[k].tx.from == key && list[k].tx.sequence.Some?
      ensures err.None? ==> forall id :: id in InsufficientIds(db, key) <==> HasId(list, id)
      ensures FailsIff(err, old(clock), old(failures))
    {
      var failed := Settle();
      if failed {
        return Some(StoreFailed), [];
      }
      list := LoadQuery(InsufficientIds(db, key), key);
      err := None;
    }

    method FindTxsRequiringGasBump(key: Addr, blockNum: int, threshold: int, depth: int) returns (err: Option<StoreError>, list: seq<Loaded>)
      requires Valid()
      modifies this
      ensures After(old(trace), old(clock), old(failures)) && Framed(old(db), db, {})
      ensures err.Some? ==> list == []
      ensures Sorted(list) && DistinctIds(list)
      ensures forall k :: 0 <= k < |list| ==> Fresh(list[k]) && list[k].tx.from == key && list[k].tx.sequence.Some?
      ensures err.None? ==> forall id :: id in GasBumpIds(db, key, blockNum, threshold, depth) <==> HasId(list, id)
      ensures FailsIff(err, old(clock), old(failures))
    {
      var failed := Settle();
      if failed {
        return Some(StoreFailed), [];
      }
      list := LoadQuery(GasBumpIds(db, key, blockNum, threshold, depth), key);
      err := None;
    }

    method LoadQuery(ids: set<int>, key: Addr) returns (list: seq<Loaded>)
      requires Valid() && forall id :: id in ids ==> InState(db, key, Unconfirmed, id)
      ensures Sorted(list) && DistinctIds(list)
      ensures forall k :: 0 <= k < |list| ==> Fresh(list[k]) && list[k].tx.from == key && list[k].tx.sequence.Some?
      ensures forall id :: id in ids <==> HasId(list, id)
    {
      list := LoadAll(ids);
      forall k | 0 <= k < |list|
        ensures list[k].tx.from == key && list[k].tx.sequence.Some?
      {
        assert RowOk(db, list[k].tx.id);
      }
    }

    /** The same rows with their receipts, whatever key they belong to. */
    method FindTransactionsConfirmedInBlockRange(high: int, low: int) returns (err: Option<StoreError>, list: seq<Loaded>)
      requires Valid()
      modifies this
      ensures After(old(trace), old(clock), old(failures)) && Framed(old(db), db, {})
      ensures err.Some? ==> list == []
      ensures Sorted(list) && DistinctIds(list) && forall k :: 0 <= k < |list| ==>
                Fresh(list[k]) && list[k].tx.id in db.txs && list[k].tx == db.txs[list[k].tx.id]
      ensures err.None? ==> forall id :: id in ConfirmedInRangeIds(db, low, high) <==> HasId(list, id)
      ensures FailsIff(err, old(clock), old(failures))
    {
      var failed := Settle();
      if failed {
        return Some(StoreFailed), [];
      }
      list := LoadAll(ConfirmedInRangeIds(db, low, high));
      err := None;
    }

    // ------------------------------------------------------------- re-orgs

    /** Fails without a change unless the transaction was loaded as confirmed and its
        attempt as broadcast. */
    method UpdateTxForRebroadcast(e: Loaded) returns (err: Option<StoreError>)
      requires Valid() && Fresh(e) && |e.attempts| > 0
      modifies this
      ensures After(old(trace), old(clock), old(failures)) && Framed(old(db), db, {e.tx.id})
      ensures err.None? && e.tx.id in db.txs ==>
                e.tx.id in old(db).txs && ToBeResent(old(db).txs[e.tx.id], db.txs[e.tx.id], e.attempts[0].id)
      ensures err.Some? ==> Framed(old(db), db, {})
      ensures if RefusedAsLoaded(e) then err == Some(Violation) && failures == old(failures) else FailsIff(err, old(clock), old(failures))
    {
      ghost var start := db;
      if !e.tx.state.Confirmed? || !e.attempts[0].state.AttemptBroadcast? {
        return Some(Violation);
      }
      var failed := Settle();
      if failed {
        return Some(StoreFailed);
      }
      if e.tx.id in db.txs {
        StillMarkable(start, db, e);
        MarkedAlike(start.txs[e.tx.id], db.txs[e.tx.id], e.attempts[0].id);
        CommitRow(OwnCall.MarkForRebroadcast(e.tx.id, e.attempts[0].id), old(trace), start,
                  RebroadcastRow(db.txs[e.tx.id], e.attempts[0].id));
      }
      err := None;
    }

    // ------------------------------------------------ updates of the whole table

    method SetBroadcastBeforeBlockNum(blockNum: int) returns (err: Option<StoreError>, ghost seen: Db)
      requires Valid()
      modifies this
      ensures After(old(trace), old(clock), old(failures))
      ensures Framed(old(db), seen, {})
      ensures err.Some? ==> db == seen
      ensures err.None? ==> StampedOnly(seen, db, blockNum)
      ensures FailsIff(err, old(clock), old(failures))
    {
      var failed := Settle();
      seen := db;
      if failed {
        return Some(StoreFailed), seen;
      }
      Commit(Stamp(blockNum));
      err := None;
    }

    /** All attempts that may have been mined, by sequence and the dearest first. */
    method FindTxAttemptsRequiringReceiptFetch() returns (err: Option<StoreError>, attempts: seq<Pending>)
      requires Valid()
      modifies this
      ensures After(old(trace), old(clock), old(failures))
      ensures Framed(old(db), db, {})
      ensures DearestFirst(attempts)
      ensures forall k :: 0 <= k < |attempts| ==> IsPending(db.txs, attempts[k])
      ensures err.None? ==> forall p :: IsPending(db.txs, p) ==> p in attempts
      ensures FailsIff(err, old(clock), old(failures))
    {
      var failed := Settle();
      attempts := [];
      if failed {
        return Some(StoreFailed), attempts;
      }
      forall id | id in db.txs
        ensures RowOk(db, id)
      {
      }
      attempts := ListForReceipts(db.txs);
      err := None;
    }

    /** The dearest attempt of every transaction that is missing its receipt. */
    method FindTxAttemptsConfirmedMissingReceipt() returns (err: Option<StoreError>, attempts: seq<Attempt>)
      requires Valid()
      modifies this
      ensures After(old(trace), old(clock), old(failures)) && Framed(old(db), db, {})
      ensures if err.None? then AreMissing(db, attempts) else attempts == []
      ensures FailsIff(err, old(clock), old(failures))
    {
      var failed := Settle();
      attempts := [];
      if failed {
        return Some(StoreFailed), attempts;
      }
      var ids := set id | id in db.txs && MissesReceipt(db.txs[id]);
      var list := LoadAll(ids);
      attempts := FirstAttempts(list);
      forall id | id in db.txs && MissesReceipt(db.txs[id])
        ensures exists k :: 0 <= k < |attempts| && attempts[k].txId == id
      {
        assert id in ids;
        var k :| 0 <= k < |list| && list[k].tx.id == id;
        assert attempts[k].txId == id;
      }
      err := None;
    }

    method FirstAttempts(list: seq<Loaded>) returns (attempts: seq<Attempt>)
      requires Valid()
      requires forall k :: 0 <= k < |list| ==> Fresh(list[k]) && list[k].tx.id in db.txs && MissesReceipt(db.txs[list[k].tx.id])
      ensures |attempts| == |list|
      ensures forall k :: 0 <= k < |list| ==> attempts[k].txId == list[k].tx.id && IsMissing(db, attempts[k])
    {
      attempts := [];
      for i := 0 to |list|
        invariant |attempts| == i
        invariant forall k :: 0 <= k < i ==> attempts[k].txId == list[k].tx.id && IsMissing(db, attempts[k])
      {
        FirstLoadedIsDearest(db, list[i]);
        attempts := attempts + [list[i].attempts[0]];
      }
    }

    method UpdateTxsUnconfirmed(ids: set<int>) returns (err: Option<StoreError>, ghost seen: Db)
      requires Valid() && forall id :: id in ids ==> Care(db, id)
      modifies this
      ensures After(old(trace), old(clock), old(failures))
      ensures Framed(old(db), seen, {})
      ensures err.Some? ==> db == seen
      ensures StateOk(seen)
      ensures err.None? ==> db == seen.(txs := map id | id in seen.txs :: UnconfirmedRow(seen.txs[id], ids))
      ensures FailsIff(err, old(clock), old(failures))
    {
      ghost var start := db;
      var failed := Settle();
      seen := db;
      if failed {
        return Some(StoreFailed), seen;
      }
      assert forall id :: Care(start, id) ==> Care(db, id);
      Commit(Unconfirm(ids));
      err := None;
    }

    method SaveFetchedReceipts(receipts: seq<Receipt>) returns (err: Option<StoreError>, ghost seen: Db)
      requires Valid()
      modifies this
      ensures After(old(trace), old(clock), old(failures))
      ensures Framed(old(db), seen, {})
      ensures err.Some? ==> db == seen
      ensures receipts == [] ==> db == old(db)
      ensures err.None? && receipts != [] ==> db == seen.(txs := map id | id in seen.txs :: ReceivedRow(seen.txs[id], receipts))
      ensures if receipts == [] then err.None? && failures == old(failures) else FailsIff(err, old(clock), old(failures))
    {
      if receipts == [] {
        return None, db;
      }
      var failed := Settle();
      seen := db;
      if failed {
        return Some(StoreFailed), seen;
      }
      Commit(Receive(receipts));
      err := None;
    }

    method MarkAllConfirmedMissingReceipt() returns (err: Option<StoreError>, ghost seen: Db)
      requires Valid()
      modifies this
      ensures After(old(trace), old(clock), old(failures))
      ensures Framed(old(db), seen, {})
      ensures err.Some? ==> db == seen
      ensures err.None? ==> db == seen.(txs := map id | id in seen.txs :: OvertakenRow(seen, seen.txs[id]))
      ensures FailsIff(err, old(clock), old(failures))
    {
      var failed := Settle();
      seen := db;
      if failed {
        return Some(StoreFailed), seen;
      }
      Commit(MarkMissing);
      err := None;
    }

    method MarkOldTxesMissingReceiptAsErrored(blockNum: int, finalityDepth: nat) returns (err: Option<StoreError>, ghost seen: Db)
      requires Valid()
      modifies this
      ensures After(old(trace), old(clock), old(failures))
      ensures Framed(old(db), seen, {})
      ensures err.Some? ==> db == seen
      ensures err.None? && blockNum <= finalityDepth ==> db == old(db)
      ensures err.None? && blockNum > finalityDepth ==>
                db == seen.(txs := map id | id in seen.txs :: ExpiredRow(seen.txs[id], blockNum - finalityDepth))
      ensures if blockNum <= finalityDepth then err.None? && failures == old(failures) else FailsIff(err, old(clock), old(failures))
    {
      var cutoff := blockNum - finalityDepth;
      if cutoff <= 0 {
        return None, db;
      }
      var failed := Settle();
      seen := db;
      if failed {
        return Some(StoreFailed), seen;
      }
      Commit(Expire(cutoff));
      err := None;
    }
  }
}
