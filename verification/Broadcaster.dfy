/** common/txmgr/broadcaster.go: the loop that takes one transaction at a time from
    unstarted through in_progress to unconfirmed or fatal_error, for one key.

    What the node, the estimator, the transmit checker and the resume callback
    answer is arbitrary (`World`, indexed by the number of questions asked so
    far), except for the client contract in NodeReply. `life` is the number of
    rounds and re-estimations after which the process is killed: nothing in the
    source bounds those two. Kills between store calls need no code: every
    prefix of the store's trace is a run. */
module Broadcaster {
  import opened Options
  import opened TxTypes
  import opened BroadcasterProtocol
  import opened BroadcasterStore
  import opened AttemptBuilder
  import Fee

  datatype Error =
    | Store(cause: StoreError)
    | InvariantViolation
    | CheckerSpec | CheckerBuild
    | SendFailed(code: SendCode)
    | PendingSequence
    | BumpRejected(bump: Fee.BumpError)
    | BuildFailed
    | ReestimationUnsupported
    | ResumeFailed
    | ContextCancelled
    | Killed

  datatype CheckOutcome = SpecError | BuilderError | Passed | TimedOut | Rejected
  datatype ResumeOutcome = NoCallback | Resumed | AlreadyResumed | ResumeError

  datatype World = World(
    send: nat -> NodeReply,
    pendingSequence: nat -> Option<int>,
    check: nat -> CheckOutcome,
    build: nat -> BuildOutcome,
    estimate: nat -> Estimate,
    resume: nat -> ResumeOutcome,
    cancelled: nat -> bool,
    now: nat -> int)

  datatype Config = Config(maxInFlight: nat, fee: Fee.BumpConfig)

  /** One attempt that was sent: the first question about it, the attempt, and the database at
      that time. */
  datatype Round = Round(n: nat, attempt: Attempt, d: Db)

  /** A transaction that was picked: the database it was picked from, its row once it was in
      progress, the question that priced its first attempt, the database then, and how many
      calls had failed. Without rounds it was pruned meanwhile. */
  datatype Pick = Pick(seen: Db, etx: Tx, priced: nat, started: Tx, start: Db, failures: nat, rounds: seq<Round>)

  class Broadcaster {
    const store: TxStore
    const world: World
    const cfg: Config
    var ticks: nat
    var life: nat

    ghost predicate Valid()
      reads this, store
    {
      && store.Valid()
      && 0 <= cfg.fee.bumpMin
      && (store.bounded ==> store.limit == cfg.maxInFlight && 0 < cfg.maxInFlight)
    }

    ghost predicate Idle()
      reads this, store
    {
      IdsInState(store.db, store.key, InProgress) == {}
    }

    constructor (store: TxStore, world: World, cfg: Config, life: nat)
      requires store.Valid() && 0 <= cfg.fee.bumpMin
      requires store.bounded ==> store.limit == cfg.maxInFlight && 0 < cfg.maxInFlight
      ensures Valid() && this.store == store && this.cfg == cfg && this.life == life
    {
      this.store, this.world, this.cfg := store, world, cfg;
      this.ticks, this.life := 0, life;
    }

    method Ask() returns (n: nat)
      modifies this`ticks
      ensures n == old(ticks) && ticks == n + 1
    {
      n := ticks;
      ticks := ticks + 1;
    }

    // -------------------------------------------------------- what an error means

    /** An error has a cause: a call of the store that failed, or an answer to one of the
        questions since the t-th; `f` calls had failed before. */
    ghost predicate Caused(err: Error, t: nat, f: nat)
      reads this, store
    {
      match err
      case Store(e) => e.StoreFailed? && f < store.failures
      case Killed => life == 0
      case _ => exists n :: t <= n < ticks && Causes(n, err)
    }

    ghost predicate Causes(n: nat, err: Error) {
      match err
      case CheckerSpec => world.check(n).SpecError?
      case CheckerBuild => world.check(n).BuilderError?
      case SendFailed(code) => world.send(n).code == code && !code.Fatal? && !Taken(code) && !Repriced(code)
      case PendingSequence => world.pendingSequence(n).None?
      case BumpRejected(e) => exists fee :: RefusesBump(world.estimate(n), fee, cfg.fee, e)
      case BuildFailed => world.estimate(n).Unavailable? || world.build(n).NotBuilt?
      case ReestimationUnsupported => world.send(n).code.FeeOutOfValidRange?
      case ResumeFailed => world.resume(n).ResumeError?
      case ContextCancelled => world.cancelled(n)
      case _ => false
    }

    lemma CausedBefore(err: Option<Error>, t: nat, f: nat, t': nat, f': nat)
      requires t' <= t && f' <= f && (err.Some? ==> Caused(err.value, t, f))
      ensures err.Some? ==> Caused(err.value, t', f')
    {
    }

    /** Whether the caller is told to come back soon; only a failed build decides for itself. */
    ghost predicate RightRetry(err: Error, retryable: bool) {
      match err
      case Store(_) | PendingSequence | BumpRejected(_) | ResumeFailed => retryable
      case SendFailed(code) => retryable <==> !code.Unsupported?
      case BuildFailed => true
      case _ => !retryable
    }

    // ---------------------------------------------------------------- the loop

    /** First finishes what an earlier process left in_progress, then takes unstarted
        transactions until there are none. Without an error and without a retry,
        nothing is in progress and nothing was unstarted at the last look-up. */
    method ProcessUnstartedTxs() returns (retryable: bool, err: Option<Error>)
      requires Valid()
      modifies this, store
      ensures Valid() && old(store.trace).ContinuedBy(store.trace) && old(ticks) <= ticks && old(store.failures) <= store.failures
      ensures err.Some? ==> Caused(err.value, old(ticks), old(store.failures)) && RightRetry(err.value, retryable)
      ensures err.None? ==> !retryable && Idle() && IdsInState(store.db, store.key, Unstarted) == {}
      ensures store.bounded ==> forall d :: d in store.trace.states ==> |InFlightIds(d, store.key)| <= cfg.maxInFlight
      decreases life
    {
      ghost var found;
      err, retryable, found := HandleAnyInProgressTx();
      if err.Some? {
        return;
      }
      while true
        invariant Valid() && old(store.trace).ContinuedBy(store.trace)
        invariant old(ticks) <= ticks && old(store.failures) <= store.failures
        invariant Idle()
        decreases life
      {
        if life == 0 {
          return false, Some(Killed);
        }
        life := life - 1;
        var wait, done;
        ghost var n, f, t := ticks, store.failures, store.trace;
        ghost var seen;
        err, retryable, wait, seen := Throttle();
        ContinuedTransitive(old(store.trace), t, store.trace);
        CausedBefore(err, n, f, old(ticks), old(store.failures));
        if err.Some? {
          return;
        }
        if wait {
          continue;
        }
        ghost var pick;
        n, f, t := ticks, store.failures, store.trace;
        err, retryable, done, pick := ProcessNext();
        ContinuedTransitive(old(store.trace), t, store.trace);
        CausedBefore(err, n, f, old(ticks), old(store.failures));
        if err.Some? || done {
          return;
        }
      }
    }

    /** The head of a round: wait while MaxInFlight transactions are unconfirmed; `seen` is
        the database when they were counted. */
    method Throttle() returns (err: Option<Error>, retryable: bool, wait: bool, ghost seen: Db)
      requires Valid() && Idle()
      modifies this`ticks, store
      ensures Valid() && old(store.trace).ContinuedBy(store.trace) && Idle()
      ensures old(ticks) <= ticks && old(store.failures) <= store.failures
      ensures err.Some? ==> Caused(err.value, old(ticks), old(store.failures)) && RightRetry(err.value, retryable)
      ensures cfg.maxInFlight == 0 ==> err.None? && !wait
      ensures wait || err == Some(ContextCancelled) ==> |IdsInState(seen, store.key, Unconfirmed)| >= cfg.maxInFlight
      ensures err.None? && !wait && cfg.maxInFlight > 0 ==> store.db == seen && |IdsInState(seen, store.key, Unconfirmed)| < cfg.maxInFlight
      ensures seen in store.trace.states
    {
      err, retryable, wait, seen := None, false, false, store.db;
      if cfg.maxInFlight > 0 {
        var e, nUnconfirmed := store.CountUnconfirmedTransactions();
        seen := store.db;
        if e.Some? {
          return Some(Store(e.value)), true, false, seen;
        }
        if nUnconfirmed >= cfg.maxInFlight {
          ghost var t := store.trace;
          var e', _ := store.CountUnstartedTransactions();
          ContinuedTransitive(old(store.trace), t, store.trace);
          if e'.Some? {
            return Some(Store(e'.value)), true, false, seen;
          }
          var n := Ask();
          if world.cancelled(n) {
            assert Causes(n, ContextCancelled);
            return Some(ContextCancelled), false, false, seen;
          }
          wait := true;
        }
      }
    }

    /** The next transaction that was picked, and everything that became of it. */
    ghost predicate Picked(p: Pick, err: Option<Error>, retryable: bool)
      reads this, store
    {
      && IsFirstUnstarted(p.seen, store.key, p.etx) && p.seen in store.trace.states
      && (p.rounds == [] ==> if err.None? then p.etx.id !in store.db.txs
                             else err == Some(Store(StoreFailed)) || (err == Some(BuildFailed) && world.build(p.priced) == NotBuilt(retryable)))
      && (p.rounds != [] ==>
            && p.started == p.etx.(state := InProgress, attempts := p.started.attempts)
            && IsEstimate(p.rounds[0].attempt, p.etx.id, world.build(p.priced))
            && p.rounds[0].n == p.priced + 1
            && Handled(p.start, p.started.id, p.started.sequence, world.now(p.priced), p.rounds, err, retryable, p.failures))
    }

    /** The rest of a round: pick the next transaction, put it in progress, send it. */
    method ProcessNext() returns (err: Option<Error>, retryable: bool, done: bool, ghost p: Option<Pick>)
      requires Valid() && Idle()
      requires store.bounded ==> |IdsInState(store.db, store.key, Unconfirmed)| < store.limit
      modifies this, store
      ensures Valid() && old(store.trace).ContinuedBy(store.trace) && old(ticks) <= ticks && old(store.failures) <= store.failures
      ensures err.Some? ==> Caused(err.value, old(ticks), old(store.failures)) && RightRetry(err.value, retryable)
      ensures err.None? ==> Idle()
      ensures err.None? && done ==> !retryable && IdsInState(store.db, store.key, Unstarted) == {}
      ensures err.None? && !done ==> p.Some?
      ensures p.Some? ==> Picked(p.value, err, retryable)
      ensures life <= old(life)
      decreases life
    {
      done, p := false, None;
      var e, next;
      ghost var seen;
      e, next, seen := NextUnstartedTransactionWithSequence();
      if e.Some? {
        return Some(Store(e.value)), true, false, p;
      }
      if next.None? {
        return None, false, true, p;
      }
      ghost var t, n, f, pick := store.trace, ticks, store.failures, Pick(seen, next.value, 0, next.value, seen, 0, []);
      err, retryable, pick := StartAndSend(next.value, seen);
      p := Some(pick);
      ContinuedTransitive(old(store.trace), t, store.trace);
      CausedBefore(err, n, f, old(ticks), old(store.failures));
    }

    /** The transaction has its sequence; it was the first when it was looked up. */
    method StartAndSend(etx: Tx, ghost seen: Db) returns (err: Option<Error>, retryable: bool, ghost p: Pick)
      requires Valid() && Idle()
      requires store.bounded ==> |IdsInState(store.db, store.key, Unconfirmed)| < store.limit
      requires etx.id !in store.db.txs
            || (InState(store.db, store.key, Unstarted, etx.id) && store.db.txs[etx.id] == etx.(sequence := None))
      requires etx.id <= store.db.lastTxId && etx.state.Unstarted? && etx.from == store.key && etx.sequence == Some(store.db.next[store.key])
      requires IsFirstUnstarted(seen, store.key, etx) && seen in store.trace.states
      modifies this, store
      ensures Valid() && old(store.trace).ContinuedBy(store.trace) && old(ticks) <= ticks && old(store.failures) <= store.failures
      ensures err.Some? ==> Caused(err.value, old(ticks), old(store.failures)) && RightRetry(err.value, retryable)
      ensures err.None? ==> Idle()
      ensures Picked(p, err, retryable)
      ensures life <= old(life)
      decreases life
    {
      p := Pick(seen, etx, ticks, etx, seen, store.failures, []);
      var n := Ask();
      var built := world.build(n);
      if built.NotBuilt? {
        assert Causes(n, BuildFailed);
        return Some(BuildFailed), built.retryable, p;
      }
      var e', started, saved := store.UpdateTxUnstartedToInProgress(etx, NewAttempt(etx.id, built));
      if e' == Some(TxRemoved) {
        return None, false, p;
      } else if e'.Some? {
        return Some(Store(e'.value)), true, p;
      }
      ghost var t, start, asked, f := store.trace, store.db, ticks, store.failures;
      ghost var rounds;
      err, retryable, rounds := HandleInProgressTx(started, saved, world.now(n));
      p := Pick(seen, etx, n, started, start, f, rounds);
      HandledIsCaused(start, started.id, started.sequence, world.now(n), rounds, err, retryable, asked, f);
      CausedBefore(err, asked, f, old(ticks), old(store.failures));
      ContinuedTransitive(old(store.trace), t, store.trace);
    }

    /** The transaction that an earlier process left in progress is sent as it was, unless
        there is none. */
    method HandleAnyInProgressTx() returns (err: Option<Error>, retryable: bool, ghost rounds: seq<Round>)
      requires Valid()
      modifies this, store
      ensures Valid() && old(store.trace).ContinuedBy(store.trace) && old(ticks) <= ticks && old(store.failures) <= store.failures
      ensures err.Some? ==> Caused(err.value, old(ticks), old(store.failures)) && RightRetry(err.value, retryable)
      ensures err.None? ==> Idle() && !retryable
      ensures rounds != [] ==>
        && rounds[0].n == old(ticks)
        && exists etx: Tx, again :: Handled(rounds[0].d, etx.id, etx.sequence, etx.createdAt, rounds, err, again, old(store.failures))
      ensures rounds == [] ==> err == Some(Store(StoreFailed)) || (err.None? && IdsInState(old(store.db), store.key, InProgress) == {})
      ensures life <= old(life)
      decreases life
    {
      rounds := [];
      var e, found := store.GetTxInProgress();
      if e.Some? {
        return Some(Store(e.value)), true, rounds;
      }
      if found.Some? {
        var (etx, attempt) := found.value;
        ghost var t, start, asked, f := store.trace, store.db, ticks, store.failures;
        err, retryable, rounds := HandleInProgressTx(etx, attempt, etx.createdAt);
        HandledIsCaused(start, etx.id, etx.sequence, etx.createdAt, rounds, err, retryable, asked, f);
        CausedBefore(err, asked, f, old(ticks), old(store.failures));
        ContinuedTransitive(old(store.trace), t, store.trace);
        if err.Some? {
          return;
        }
      }
      return None, false, rounds;
    }

    // ------------------------------------------------------- sending a transaction

    /** The node has the transaction, one way or the other. */
    predicate Taken(code: SendCode) { code.Successful? || code.TransactionAlreadyKnown? }

    /** The node wants another price. */
    predicate Repriced(code: SendCode) { code.Underpriced? || code.FeeOutOfValidRange? }

    /** The transmit checker lets the transaction through, or does not answer in time. */
    predicate LetThrough(n: nat) { world.check(n).Passed? || world.check(n).TimedOut? }

    /** A new attempt at the price the estimator gave. */
    ghost predicate IsEstimate(next: Attempt, txId: int, built: BuildOutcome) {
      && built.Built? && next.txHash == built.txHash && next.fee == built.fee && next.txId == txId
      && next.state.AttemptInProgress? && next.broadcastBefore.None? && next.receipts == []
    }

    /** The attempt of the next round was saved in the place of the one before and asked about
        next, because the node wanted another price. */
    ghost predicate TriedAgain(id: int, r: Round, next: Round) {
      next.n == r.n + 2 && MayFollow(id, r, next.attempt)
    }

    /** The node wanted another price, and this is an attempt at the price it is to get. */
    ghost predicate MayFollow(id: int, r: Round, next: Attempt) {
      && LetThrough(r.n)
      && match world.send(r.n).code
         case Underpriced => next.txId == id && IsBump(r.attempt, next, world.estimate(r.n + 1), world.build(r.n + 1), cfg.fee)
         case FeeOutOfValidRange =>
           r.attempt.txType != 2 && next.txType == r.attempt.txType && IsEstimate(next, id, world.build(r.n + 1))
         case _ => false
    }

    /** When it was sent, this attempt was the only one of the transaction. */
    ghost predicate HeldAt(r: Round, id: int) {
      InState(r.d, store.key, InProgress, id) && r.d.txs[id].attempts == map[r.attempt.id := r.attempt]
    }

    /** The attempts that were sent in one go, the first from the n-th question on. */
    ghost predicate SentInTurn(id: int, rounds: seq<Round>)
      reads store
    {
      && rounds != []
      && (forall k :: 0 <= k < |rounds| ==> HeldAt(rounds[k], id) && rounds[k].d in store.trace.states)
      && forall k :: 0 <= k < |rounds| - 1 ==> TriedAgain(id, rounds[k], rounds[k + 1])
    }

    /** What failing a transaction ends in, with the n-th question to the pipeline. */
    ghost predicate EndedFatally(n: nat, d: Db, id: int, err: Option<Error>)
      reads store
    {
      if world.resume(n).ResumeError? then err == Some(ResumeFailed)
      else if err.None? then store.WasFatal(d, id) else err == Some(Store(StoreFailed))
    }

    ghost predicate EndedHandedOver(r: Round, d: Db, id: int, sequence: Option<int>, at: int, err: Option<Error>)
      reads store
    {
      if err.None? then store.WasHandedOver(d, id, sequence, r.attempt, Some(at), Some(at))
      else err == Some(Store(StoreFailed))
    }

    /** Why an underpriced attempt was not replaced. */
    ghost predicate NotBumped(r: Round, err: Option<Error>, retryable: bool) {
      var estimate, built := world.estimate(r.n + 1), world.build(r.n + 1);
      match err
      case Some(BumpRejected(e)) => retryable && RefusesBump(estimate, r.attempt.fee, cfg.fee, e)
      case Some(BuildFailed) => if estimate.Unavailable? then retryable else built == NotBuilt(retryable)
      case _ => err == Some(Store(StoreFailed)) && retryable
    }

    ghost predicate NotReestimated(r: Round, err: Option<Error>, retryable: bool)
      reads this
    {
      if r.attempt.txType == 2 then err == Some(ReestimationUnsupported) && !retryable
      else match world.build(r.n + 1)
           case NotBuilt(again) => err == Some(BuildFailed) && retryable == again
           case Built(_, _, _) => if retryable then err == Some(Store(StoreFailed)) else err == Some(Killed) && life == 0
    }

    /** What the node's answer about an attempt calls for, when no other attempt followed. */
    ghost predicate NodeAnswered(r: Round, d: Db, id: int, sequence: Option<int>, at: int, err: Option<Error>, retryable: bool)
      reads this, store
    {
      var code := world.send(r.n).code;
      match code
      case Fatal => retryable && EndedFatally(r.n + 1, d, id, err)
      case Successful | TransactionAlreadyKnown => retryable && EndedHandedOver(r, d, id, sequence, at, err)
      case Underpriced => NotBumped(r, err, retryable)
      case FeeOutOfValidRange => NotReestimated(r, err, retryable)
      case Unsupported => err == Some(SendFailed(code)) && !retryable
      case InsufficientFunds | Retryable => err == Some(SendFailed(code)) && retryable
      case _ =>
        && retryable
        && match world.pendingSequence(r.n)
           case None => err == Some(PendingSequence)
           case Some(pending) =>
             if sequence.Some? && sequence.value < pending then EndedHandedOver(r, d, id, sequence, at, err)
             else err == Some(SendFailed(code))
    }

    /** How the last round ends: the checker decides, or else the node. After an error the
        transaction is still in progress with this attempt, and nothing was handed over. */
    ghost predicate Ended(r: Round, d: Db, id: int, sequence: Option<int>, at: int, err: Option<Error>, retryable: bool, f: nat)
      reads this, store
    {
      && (err.Some? ==> store.StillInProgress(d, id) && store.IsSending(id, r.attempt))
      && (err == Some(Store(StoreFailed)) ==> f < store.failures)
      && r.n < ticks && (err.Some? && (err.value.BumpRejected? || err.value.BuildFailed? || err.value.ResumeFailed?) ==> r.n + 1 < ticks)
      && match world.check(r.n)
         case SpecError => err == Some(CheckerSpec) && !retryable
         case BuilderError => err == Some(CheckerBuild) && !retryable
         case Rejected => retryable && EndedFatally(r.n + 1, d, id, err)
         case _ => NodeAnswered(r, d, id, sequence, at, err, retryable)
    }

    /** Everything that became of a transaction in progress: the attempts that were sent, each
        because the node wanted another price, and how the last one ended. */
    ghost predicate Handled(d: Db, id: int, sequence: Option<int>, at: int, rounds: seq<Round>, err: Option<Error>, retryable: bool, f: nat)
      reads this, store
    {
      SentInTurn(id, rounds) && Ended(rounds[|rounds| - 1], d, id, sequence, at, err, retryable, f)
    }

    lemma HandledIsCaused(d: Db, id: int, sequence: Option<int>, at: int, rounds: seq<Round>,
                          err: Option<Error>, retryable: bool, t: nat, f: nat)
      requires Handled(d, id, sequence, at, rounds, err, retryable, f) && t == rounds[0].n
      ensures err.Some? ==> Caused(err.value, t, f) && RightRetry(err.value, retryable)
    {
      RoundsGoOn(id, rounds, |rounds| - 1);
      EndedIsCaused(rounds[|rounds| - 1], d, id, sequence, at, err, retryable, f);
    }

    lemma EndedIsCaused(r: Round, d: Db, id: int, sequence: Option<int>, at: int, err: Option<Error>, retryable: bool, f: nat)
      requires Ended(r, d, id, sequence, at, err, retryable, f)
      ensures err.Some? ==> Caused(err.value, r.n, f) && RightRetry(err.value, retryable)
    {
      if err.Some? {
        match err.value
        case Store(_) =>
        case Killed =>
        case BumpRejected(e) =>
          assert RefusesBump(world.estimate(r.n + 1), r.attempt.fee, cfg.fee, e);
          assert Causes(r.n + 1, err.value);
        case BuildFailed => assert Causes(r.n + 1, err.value);
        case ResumeFailed => assert Causes(r.n + 1, err.value);
        case CheckerSpec => assert Causes(r.n, err.value);
        case CheckerBuild => assert Causes(r.n, err.value);
        case SendFailed(_) => assert Causes(r.n, err.value);
        case PendingSequence => assert Causes(r.n, err.value);
        case ReestimationUnsupported => assert Causes(r.n, err.value);
        case _ =>
      }
    }

    lemma {:induction false} RoundsGoOn(id: int, rounds: seq<Round>, k: nat)
      requires SentInTurn(id, rounds) && k < |rounds|
      ensures rounds[0].n <= rounds[k].n
    {
      if k > 0 {
        RoundsGoOn(id, rounds, k - 1);
        assert TriedAgain(id, rounds[k - 1], rounds[k - 1 + 1]);
      }
    }

    /** What became of the attempts after it is what became of the transaction. */
    lemma HandledWithRetry(first: Round, d: Db, d': Db, id: int, sequence: Option<int>, at: int, more: seq<Round>,
                           err: Option<Error>, retryable: bool, f: nat)
      requires Handled(d', id, sequence, at, more, err, retryable, f)
      requires HeldAt(first, id) && first.d in store.trace.states && TriedAgain(id, first, more[0])
      requires KeyKnown(store.key, d) && KeyKnown(store.key, d') && InState(d, store.key, InProgress, id) && id in d'.txs
      requires d'.handed[store.key] == d.handed[store.key] && d'.next[store.key] == d.next[store.key]
      requires d'.txs[id] == d.txs[id].(attempts := d'.txs[id].attempts)
      ensures Handled(d, id, sequence, at, [first] + more, err, retryable, f)
    {
      var rounds := [first] + more;
      forall k | 0 <= k < |rounds| - 1
        ensures TriedAgain(id, rounds[k], rounds[k + 1])
      {
        if k > 0 {
          assert TriedAgain(id, more[k - 1], more[k - 1 + 1]);
        }
      }
      assert rounds[|rounds| - 1] == more[|more| - 1];
    }

    lemma HeldNow(etx: Tx, attempt: Attempt, n: nat)
      requires Valid() && store.Holds(etx, attempt)
      ensures HeldAt(Round(n, attempt, store.db), etx.id) && store.db in store.trace.states
    {
    }

    /** Sends the attempt and moves the transaction on as the node's answer says. */
    method HandleInProgressTx(etx0: Tx, attempt: Attempt, initialBroadcastAt: int)
      returns (err: Option<Error>, retryable: bool, ghost rounds: seq<Round>)
      requires Valid() && (etx0.state.InProgress? ==> store.Holds(etx0, attempt))
      modifies this, store
      ensures Valid() && old(store.trace).ContinuedBy(store.trace) && old(ticks) <= ticks && old(store.failures) <= store.failures
      ensures err.None? ==> Idle()
      ensures if etx0.state.InProgress? then
                rounds != [] && rounds[0] == Round(old(ticks), attempt, old(store.db))
                && Handled(old(store.db), etx0.id, etx0.sequence, initialBroadcastAt, rounds, err, retryable, old(store.failures))
              else err == Some(InvariantViolation) && !retryable
      ensures life <= old(life)
      decreases life, Fee.BumpMeasure(attempt.fee, cfg.fee), 3
    {
      var etx := etx0;
      rounds := [Round(ticks, attempt, store.db)];
      if !etx.state.InProgress? {
        return Some(InvariantViolation), false, rounds;
      }
      HeldNow(etx, attempt, ticks);
      var n := Ask();
      match world.check(n) {
        case SpecError =>
          return Some(CheckerSpec), false, rounds;
        case BuilderError =>
          return Some(CheckerBuild), false, rounds;
        case Rejected =>
          etx := etx.(error := true);
          err := SaveFatallyErroredTransaction(etx, attempt);
          return err, true, rounds;
        case TimedOut =>
        case Passed =>
      }

      err, retryable, rounds := Send(n, etx, attempt, initialBroadcastAt);
    }

    /** The n-th question, the last one so far, is whether the node takes this attempt. */
    method Send(n: nat, etx0: Tx, attempt: Attempt, initialBroadcastAt: int)
      returns (err: Option<Error>, retryable: bool, ghost rounds: seq<Round>)
      requires Valid() && store.Holds(etx0, attempt) && ticks == n + 1 && LetThrough(n)
      modifies this, store
      ensures Valid() && old(store.trace).ContinuedBy(store.trace) && old(ticks) <= ticks && old(store.failures) <= store.failures
      ensures err.None? ==> Idle()
      ensures rounds != [] && rounds[0] == Round(n, attempt, old(store.db))
      ensures Handled(old(store.db), etx0.id, etx0.sequence, initialBroadcastAt, rounds, err, retryable, old(store.failures))
      ensures life <= old(life)
      decreases life, Fee.BumpMeasure(attempt.fee, cfg.fee), 2
    {
      ghost var start, f := store.db, store.failures;
      rounds := [Round(n, attempt, store.db)];
      HeldNow(etx0, attempt, n);
      var reply: SendReply := world.send(n);
      var etx := if reply.code.Fatal? then etx0
                 else etx0.(initialBroadcastAt := Some(initialBroadcastAt), broadcastAt := Some(initialBroadcastAt));

      if reply.code.Underpriced? {
        err, retryable, rounds := TryAgainBumpingGas(n, etx, attempt, initialBroadcastAt);
      } else if reply.code.FeeOutOfValidRange? {
        err, retryable, rounds := TryAgainWithNewEstimation(n, etx, attempt, initialBroadcastAt);
      } else {
        err, retryable := Conclude(n, etx, attempt, reply, initialBroadcastAt);
        HandledAtOnce(rounds[0], start, etx.id, etx.sequence, initialBroadcastAt, err, retryable, f);
      }
    }

    lemma HandledAtOnce(r: Round, d: Db, id: int, sequence: Option<int>, at: int, err: Option<Error>, retryable: bool, f: nat)
      requires HeldAt(r, id) && r.d in store.trace.states && Ended(r, d, id, sequence, at, err, retryable, f)
      ensures Handled(d, id, sequence, at, [r], err, retryable, f)
    {
    }

    /** The cases in which no other attempt follows. */
    method Conclude(n: nat, etx0: Tx, attempt: Attempt, reply: SendReply, ghost at: int) returns (err: Option<Error>, retryable: bool)
      requires Valid() && store.Holds(etx0, attempt) && ticks == n + 1 && LetThrough(n)
      requires reply == world.send(n) && !Repriced(reply.code)
      requires !reply.code.Fatal? ==> etx0.initialBroadcastAt == etx0.broadcastAt == Some(at)
      modifies this`ticks, store
      ensures Valid() && old(store.trace).ContinuedBy(store.trace) && old(ticks) <= ticks && old(store.failures) <= store.failures
      ensures err.None? ==> Idle()
      ensures Ended(Round(n, attempt, old(store.db)), old(store.db), etx0.id, etx0.sequence, at, err, retryable, old(store.failures))
    {
      if reply.code.Fatal? {
        err := SaveFatallyErroredTransaction(etx0.(error := true), attempt);
        retryable := true;
      } else if Taken(reply.code) {
        err, retryable := AssumeSuccess(etx0, attempt);
      } else if reply.code.InsufficientFunds? || reply.code.Retryable? || reply.code.Unsupported? {
        err, retryable := if reply.failed then Some(SendFailed(reply.code)) else None, !reply.code.Unsupported?;
      } else {
        err, retryable := AskPendingSequence(world.pendingSequence(n), reply, etx0, attempt);
      }
    }

    /** The node has the transaction: hand it over to the Confirmer. */
    method AssumeSuccess(etx: Tx, attempt: Attempt) returns (err: Option<Error>, retryable: bool)
      requires Valid() && store.Holds(etx, attempt) && etx.broadcastAt.Some? && etx.initialBroadcastAt.Some?
      modifies store
      ensures Valid() && old(store.trace).ContinuedBy(store.trace) && old(store.failures) <= store.failures
      ensures retryable && (err.Some? ==> err == Some(Store(StoreFailed)) && old(store.failures) < store.failures)
      ensures err.None? ==> Idle()
      ensures if err.None? then store.WasHandedOver(old(store.db), etx.id, etx.sequence, attempt, etx.broadcastAt, etx.initialBroadcastAt)
              else store.StillInProgress(old(store.db), etx.id) && store.Holds(etx, attempt)
    {
      var e := store.UpdateTxAttemptInProgressToBroadcast(etx, attempt);
      err, retryable := if e.Some? then Some(Store(e.value)) else None, true;
    }

    /** After an unknown error the node's pending sequence tells whether it took the
        transaction all the same. */
    method AskPendingSequence(pending: Option<int>, reply: SendReply, etx: Tx, attempt: Attempt)
      returns (err: Option<Error>, retryable: bool)
      requires Valid() && store.Holds(etx, attempt) && etx.broadcastAt.Some? && etx.initialBroadcastAt.Some?
      requires reply.failed
      modifies store
      ensures Valid() && old(store.trace).ContinuedBy(store.trace) && old(store.failures) <= store.failures
      ensures retryable
      ensures err.None? ==> Idle()
      ensures err.Some? ==> store.StillInProgress(old(store.db), etx.id) && store.Holds(etx, attempt)
      ensures if pending.None? then err == Some(PendingSequence)
              else if etx.sequence.Some? && etx.sequence.value < pending.value then
                if err.None? then store.WasHandedOver(old(store.db), etx.id, etx.sequence, attempt, etx.broadcastAt, etx.initialBroadcastAt)
                else err == Some(Store(StoreFailed)) && old(store.failures) < store.failures
              else err == Some(SendFailed(reply.code))
    {
      if pending.None? {
        return Some(PendingSequence), true;
      }
      assert RowOk(store.db, etx.id);
      if pending.value > etx.sequence.value {
        err, retryable := AssumeSuccess(etx, attempt);
        return;
      }
      return if reply.failed then Some(SendFailed(reply.code)) else None, true;
    }

    /** The next unstarted transaction, with the keystore's next sequence; `seen` is the
        database it was looked up in. */
    method NextUnstartedTransactionWithSequence() returns (err: Option<StoreError>, etx: Option<Tx>, ghost seen: Db)
      requires Valid() && Idle()
      modifies store
      ensures Valid() && old(store.trace).ContinuedBy(store.trace) && Idle() && old(store.failures) <= store.failures
      ensures store.StillIdle(old(store.db), store.db)
      ensures err.Some? ==> err == Some(StoreFailed) && old(store.failures) < store.failures
      ensures err.None? && etx.None? ==> IdsInState(store.db, store.key, Unstarted) == {}
      ensures etx.Some? ==>
        && etx.value.state.Unstarted? && etx.value.from == store.key
        && etx.value.sequence == Some(store.db.next[store.key])
        && etx.value.id <= store.db.lastTxId
        && (etx.value.id !in store.db.txs
            || (InState(store.db, store.key, Unstarted, etx.value.id) && store.db.txs[etx.value.id] == etx.value.(sequence := None)))
        && IsFirstUnstarted(seen, store.key, etx.value) && seen in store.trace.states
    {
      var e, found := store.FindNextUnstartedTransactionFromAddress();
      seen := store.db;
      assert store.trace.states[|store.trace.states| - 1] == seen;
      if e.Some? || found.None? {
        return e, None, seen;
      }
      assert RowOk(store.db, found.value.id);
      ghost var t := store.trace;
      var e', sequence := store.NextSequence();
      ContinuedTransitive(old(store.trace), t, store.trace);
      if e'.Some? {
        return e', None, seen;
      }
      return None, Some(found.value.(sequence := Some(sequence))), seen;
    }

    method TryAgainBumpingGas(ghost n: nat, etx: Tx, attempt: Attempt, initialBroadcastAt: int)
      returns (err: Option<Error>, retryable: bool, ghost rounds: seq<Round>)
      requires Valid() && store.Holds(etx, attempt) && ticks == n + 1 && LetThrough(n) && world.send(n).code.Underpriced?
      modifies this, store
      ensures Valid() && old(store.trace).ContinuedBy(store.trace) && old(ticks) <= ticks && old(store.failures) <= store.failures
      ensures err.None? ==> Idle()
      ensures rounds != [] && rounds[0] == Round(n, attempt, old(store.db))
      ensures Handled(old(store.db), etx.id, etx.sequence, initialBroadcastAt, rounds, err, retryable, old(store.failures))
      ensures life <= old(life)
      decreases life, Fee.BumpMeasure(attempt.fee, cfg.fee), 1
    {
      rounds := [Round(n, attempt, store.db)];
      HeldNow(etx, attempt, n);
      var m := Ask();
      match NewBumpTxAttempt(attempt, etx.id, world.estimate(m), world.build(m), cfg.fee)
      case BumpRefused(e) =>
        return Some(BumpRejected(e)), true, rounds;
      case BumpNotBuilt(again) =>
        return Some(BuildFailed), again, rounds;
      case Bumped(replacement) =>
        err, retryable, rounds := SaveTryAgainAttempt(n, etx, attempt, replacement, initialBroadcastAt);
    }

    method TryAgainWithNewEstimation(ghost n: nat, etx: Tx, attempt: Attempt, initialBroadcastAt: int)
      returns (err: Option<Error>, retryable: bool, ghost rounds: seq<Round>)
      requires Valid() && store.Holds(etx, attempt) && ticks == n + 1 && LetThrough(n) && world.send(n).code.FeeOutOfValidRange?
      modifies this, store
      ensures Valid() && old(store.trace).ContinuedBy(store.trace) && old(ticks) <= ticks && old(store.failures) <= store.failures
      ensures err.None? ==> Idle()
      ensures rounds != [] && rounds[0] == Round(n, attempt, old(store.db))
      ensures Handled(old(store.db), etx.id, etx.sequence, initialBroadcastAt, rounds, err, retryable, old(store.failures))
      ensures life <= old(life)
      decreases life, Fee.BumpMeasure(attempt.fee, cfg.fee), 1
    {
      rounds := [Round(n, attempt, store.db)];
      HeldNow(etx, attempt, n);
      if attempt.txType == 2 {
        return Some(ReestimationUnsupported), false, rounds;
      }
      var m := Ask();
      var built := world.build(m);
      if built.NotBuilt? {
        return Some(BuildFailed), built.retryable, rounds;
      }
      if life == 0 {
        return Some(Killed), false, rounds;
      }
      life := life - 1;
      err, retryable, rounds := SaveTryAgainAttempt(n, etx, attempt, NewAttempt(etx.id, built).(txType := attempt.txType), initialBroadcastAt);
    }

    /** Saves the attempt that is tried next and sends it. */
    method SaveTryAgainAttempt(ghost n: nat, etx: Tx, attempt: Attempt, replacement: Attempt, initialBroadcastAt: int)
      returns (err: Option<Error>, retryable: bool, ghost rounds: seq<Round>)
      requires Valid() && store.Holds(etx, attempt) && ticks == n + 2
      requires replacement.txId == etx.id && replacement.state.AttemptInProgress?
      requires MayFollow(etx.id, Round(n, attempt, store.db), replacement)
      modifies this, store
      ensures Valid() && old(store.trace).ContinuedBy(store.trace) && old(ticks) <= ticks && old(store.failures) <= store.failures
      ensures err.None? ==> Idle()
      ensures rounds != [] && rounds[0] == Round(n, attempt, old(store.db))
      ensures Handled(old(store.db), etx.id, etx.sequence, initialBroadcastAt, rounds, err, retryable, old(store.failures))
      ensures life <= old(life)
      decreases life, Fee.BumpMeasure(replacement.fee, cfg.fee), 4
    {
      ghost var first, start, f := Round(n, attempt, store.db), store.db, store.failures;
      rounds := [first];
      HeldNow(etx, attempt, n);
      var e, saved := store.SaveReplacementInProgressAttempt(attempt, replacement, etx);
      if e.Some? {
        return Some(Store(e.value)), true, rounds;
      }
      ghost var t, between := store.trace, store.db;
      ghost var more;
      err, retryable, more := HandleInProgressTx(etx, saved, initialBroadcastAt);
      rounds := [first] + more;
      ContinuedTransitive(old(store.trace), t, store.trace);
      assert first.d in store.trace.states;
      HandledWithRetry(first, start, between, etx.id, etx.sequence, initialBroadcastAt, more, err, retryable, f);
    }

    /** Resumes the pipeline with the error first, then records it. */
    method SaveFatallyErroredTransaction(etx: Tx, ghost attempt: Attempt) returns (err: Option<Error>)
      requires Valid() && (etx.state.InProgress? ==> store.Holds(etx, attempt))
      modifies this`ticks, store
      ensures Valid() && old(store.trace).ContinuedBy(store.trace) && old(store.failures) <= store.failures
      ensures err.None? ==> Idle()
      ensures if !etx.state.InProgress? || !etx.error then err == Some(InvariantViolation) && ticks == old(ticks)
              else EndedFatally(old(ticks), old(store.db), etx.id, err) && ticks == old(ticks) + 1
      ensures err == Some(Store(StoreFailed)) ==> old(store.failures) < store.failures
      ensures err.Some? && etx.state.InProgress? ==> store.StillInProgress(old(store.db), etx.id) && store.Holds(etx, attempt)
    {
      if !etx.state.InProgress? || !etx.error {
        return Some(InvariantViolation);
      }
      var n := Ask();
      if world.resume(n).ResumeError? {
        return Some(ResumeFailed);
      }
      var e := store.UpdateTxFatalError(etx);
      return if e.Some? then Some(Store(e.value)) else None;
    }

    /** The monitor of one key: processUnstartedTxs over and over, whatever it returned, until the
        context is cancelled. After a round without an error nothing is left to do. */
    method MonitorTxs(rounds: nat) returns (ghost last: Option<Error>, ghost done: nat)
      requires Valid()
      modifies this, store
      ensures Valid() && old(store.trace).ContinuedBy(store.trace)
      ensures rounds > 0 ==>
        if last.None? then Idle() && IdsInState(store.db, store.key, Unstarted) == {}
        else Caused(last.value, old(ticks), old(store.failures))
      ensures done <= rounds && (done < rounds ==> exists n :: old(ticks) <= n < ticks && world.cancelled(n))
    {
      last, done := None, 0;
      for i := 0 to rounds
        invariant Valid() && old(store.trace).ContinuedBy(store.trace)
        invariant old(ticks) <= ticks && old(store.failures) <= store.failures
        invariant done == i
        invariant i > 0 ==>
          if last.None? then Idle() && IdsInState(store.db, store.key, Unstarted) == {}
          else Caused(last.value, old(ticks), old(store.failures))
      {
        ghost var t, m, f := store.trace, ticks, store.failures;
        var _, err := ProcessUnstartedTxs();
        ContinuedTransitive(old(store.trace), t, store.trace);
        CausedBefore(err, m, f, old(ticks), old(store.failures));
        last, done := err, i + 1;
        var n := Ask();
        if world.cancelled(n) {
          return;
        }
      }
    }
  }
}
