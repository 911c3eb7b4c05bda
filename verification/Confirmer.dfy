/** common/txmgr/confirmer.go: what the Confirmer does on every new head.

    The node's and the estimator's answers are arbitrary (`World`, indexed by the
    number of questions asked so far), up to the client contract in NodeReply; so
    is the moment at which the timeout of a head expires.
    The goroutines that serve one key each run one after the other here: they
    touch only rows of their own key. */
module Confirmer {
  import opened Options
  import opened TxTypes
  import opened ConfirmerProtocol
  import opened ConfirmerRows
  import opened ConfirmerRuns
  import opened ConfirmerStore
  import opened AttemptBuilder
  import opened AttemptListing
  import opened RebroadcastQueue
  import opened ConfirmerReceipts
  import opened ConfirmerReorg
  import Fee

  datatype Error =
    | Store(cause: StoreError)
    | InvariantViolation
    | SendFailed(code: SendCode)
    | BumpFailed
    | NoAttempts
    | NotTheDearest
    | MinedSequence
    | FetchFailed

  /** The two lists that BatchSendTransactions returns, of this length. The entries of a
      transaction that the node was never asked about are there too, and without an error. */
  datatype BatchReply = BatchReply(reported: nat, codes: nat -> SendCode, errors: nat -> bool)

  datatype World = World(
    send: nat -> NodeReply,
    batchSend: nat -> BatchReply,
    minedSequence: nat -> Option<int>,
    receipts: (nat, nat) -> ReceiptReply,
    fetchFails: nat -> bool,
    build: nat -> BuildOutcome,
    estimate: nat -> Estimate,
    now: nat -> int,
    deadline: nat -> nat)

  datatype Config = Config(
    finalityDepth: nat, bumpThreshold: int, bumpDepth: int, maxInFlight: nat, batchSize: nat, fee: Fee.BumpConfig)

  /** A context is cancelled from some moment on. */
  datatype Context = Context(cancelAt: nat)
  {
    /** Cancelled with its parent, and by the deadline at the latest. */
    function WithTimeout(deadline: nat): (ctx: Context)
      ensures ctx.cancelAt <= cancelAt && ctx.cancelAt <= deadline && (ctx.cancelAt == cancelAt || ctx.cancelAt == deadline)
    {
      Context(if deadline < cancelAt then deadline else cancelAt)
    }
  }

  /** What FindTxsRequiringRebroadcast was told, and the database at the first query. */
  datatype Queries = Queries(insufficient: seq<Loaded>, bumps: seq<Loaded>, first: Db)

  /** From the i-th on, the attempts still to be sent; they cover all that is left over. */
  ghost predicate ToSend(db: Db, attempts: seq<Attempt>, i: nat, key: Addr) {
    && (forall k :: i <= k < |attempts| ==>
          SendingIn(db, attempts[k]) && (attempts[k].txId in db.txs ==> db.txs[attempts[k].txId].from == key))
    && (forall j, k :: i <= j < k < |attempts| ==> attempts[j].txId != attempts[k].txId)
    && (forall id, a :: Leftover(db, key, id, a) ==> exists k :: i <= k < |attempts| && attempts[k].txId == id)
  }

  lemma ToSendIsOfKey(d: Db, d': Db, attempts: seq<Attempt>, i: nat, key: Addr)
    requires ToSend(d, attempts, i, key) && i < |attempts| && Framed(d, d', {attempts[i].txId})
    ensures KeyFramed(d, d', key)
  {
  }

  lemma OneFewerToSend(d: Db, d': Db, attempts: seq<Attempt>, i: nat, key: Addr)
    requires ToSend(d, attempts, i, key) && i < |attempts| && Framed(d, d', {attempts[i].txId})
    requires attempts[i].txId in d'.txs ==> forall a :: !Unsent(d'.txs[attempts[i].txId], a)
    ensures ToSend(d', attempts, i + 1, key)
  {
  }

  /** From the i-th on, the transactions still to be rebroadcast. */
  ghost predicate Due(db: Db, etxs: seq<Loaded>, i: nat, key: Addr) {
    && (forall k :: i <= k < |etxs| ==>
          FreshIn(db, etxs[k]) && (etxs[k].tx.id in db.txs ==> db.txs[etxs[k].tx.id].from == key))
    && (forall j, k :: i <= j < k < |etxs| ==> etxs[j].tx.id != etxs[k].tx.id)
  }

  lemma DueIsOfKey(d: Db, d': Db, etxs: seq<Loaded>, i: nat, key: Addr)
    requires Due(d, etxs, i, key) && i < |etxs| && Framed(d, d', {etxs[i].tx.id})
    ensures KeyFramed(d, d', key)
  {
  }

  lemma OneFewerDue(d: Db, d': Db, etxs: seq<Loaded>, i: nat, key: Addr)
    requires Due(d, etxs, i, key) && i < |etxs| && Framed(d, d', {etxs[i].tx.id}) && NoLeftovers(d, key)
    requires etxs[i].tx.id in d'.txs ==> forall a :: !Unsent(d'.txs[etxs[i].tx.id], a)
    ensures Due(d', etxs, i + 1, key) && NoLeftovers(d', key)
  {
  }

  /** What was done for one key, and the database before, when its leftovers were looked up
      and after they were sent, when the due transactions were looked up, and after. */
  datatype KeyRound = KeyRound(start: Db, seen: Db, swept: Db, q: Queries, found: Db, due: seq<Loaded>, end: Db)

  /** What the goroutines of all keys append to the list of errors. */
  function ErrorsOf(errs: seq<Option<Error>>): seq<Error> {
    if errs == [] then []
    else
      var last := errs[|errs| - 1];
      ErrorsOf(errs[..|errs| - 1]) + if last.Some? then [last.value] else []
  }

  lemma ErrorsOfOneMore(errs: seq<Option<Error>>, err: Option<Error>)
    ensures ErrorsOf(errs + [err]) == ErrorsOf(errs) + if err.Some? then [err.value] else []
  {
  }

  lemma {:induction false} ErrorIsListed(errs: seq<Option<Error>>, e: Error) returns (i: nat)
    requires e in ErrorsOf(errs)
    ensures i < |errs| && errs[i] == Some(e)
    decreases |errs|
  {
    var n := |errs| - 1;
    if errs[n] == Some(e) {
      i := n;
    } else {
      i := ErrorIsListed(errs[..n], e);
    }
  }

  lemma {:induction false} NoErrorsIff(errs: seq<Option<Error>>)
    ensures ErrorsOf(errs) == [] <==> forall i :: 0 <= i < |errs| ==> errs[i].None?
    decreases |errs|
  {
    if errs != [] {
      var n := |errs| - 1;
      NoErrorsIff(errs[..n]);
      assert errs == errs[..n] + [errs[n]];
    }
  }

  /** What one round of CheckForReceipts saw and did: the database when the attempts
      were looked up, the attempts it asked the node about and the mined count it
      was told for each key, the receipts it saved, and the database before and
      after missing receipts were marked. */
  datatype ReceiptRound = ReceiptRound(
    seen: Db, asked: seq<Pending>, mined: map<Addr, int>, saved: seq<Receipt>, fetched: Db, marked: Db)

  /** The database at each stage of the phases that look at receipts: before and after the stamping,
      when the transactions without a receipt were looked up, before and after they went
      back, and around the receipts. `done` counts the phases that ended without an error. */
  datatype ReceiptLog = ReceiptLog(
    done: nat, seen: Db, stamped: Db, missing: Db, resent: seq<Attempt>, seenAgain: Db, sentAgain: Db, round: ReceiptRound, received: Db)

  /** The marking of re-orged transactions: how it ended, the database before and after, and
      the rounds in which the leftovers of each key were sent then, and what they ended in. */
  datatype Marking = Marking(err: Option<Error>, seen: Db, marked: Db, errs: seq<Option<Error>>, rounds: seq<KeyRound>)

  /** One head, with the moment at which the receipts were done, and how many questions had been
      asked by then: the phases that look at receipts, the rounds of the keys and what they ended
      in, the database after them, and the marking of re-orged transactions. */
  datatype HeadLog = HeadLog(
    done: nat, receipts: ReceiptLog, errs: seq<Option<Error>>, rounds: seq<KeyRound>, rebroadcast: Db, marking: Marking,
    moment: nat, asked: nat)

  /** One round of the run loop: the database before and after, the context of the head, the
      moment at which it was done, how many questions had been asked and how many calls of the
      store had failed before and after, the errors and the log. */
  datatype HeadRun = HeadRun(
    start: Db, end: Db, ctx: Context, ended: nat, asked: nat, answered: nat, failed: nat, failures: nat,
    errors: seq<Error>, log: HeadLog)

  /** The elements of s are related to those of t at the same places. */
  ghost predicate Along<A, B>(p: (A, B) -> bool, s: seq<A>, t: seq<B>) {
    |s| <= |t| && forall k :: 0 <= k < |s| ==> p(s[k], t[k])
  }

  lemma OneMoreAlong<A, B>(p: (A, B) -> bool, s: seq<A>, x: A, t: seq<B>)
    requires Along(p, s, t) && |s| < |t| && p(x, t[|s|])
    ensures Along(p, s + [x], t)
  {
  }

  function OfAddress(attempts: seq<Pending>, from: Addr): (r: seq<Pending>)
    ensures forall k :: 0 <= k < |r| ==> r[k].from == from && r[k] in attempts
    ensures forall p :: p in attempts && p.from == from ==> p in r
    ensures BySequence(attempts) ==> BySequence(r)
  {
    if attempts == [] then []
    else
      var rest := OfAddress(attempts[..|attempts| - 1], from);
      var p := attempts[|attempts| - 1];
      assert forall q :: q in attempts ==> q == p || q in attempts[..|attempts| - 1];
      if p.from == from then rest + [p] else rest
  }

  /** The five answers that settle an attempt. */
  predicate Settles(code: SendCode) {
    code.ExceedsMaxFee? || code.Fatal? || code.TransactionAlreadyKnown? || code.InsufficientFunds? || code.Successful?
  }

  /** What the answer about `last`, the final replacement of the attempt `first` or that one
      itself, makes of the row. It is broadcast if the node has it, out of funds if that is
      what the node says, and gone if the node will never take it; the transaction is
      missing its receipt if its sequence was used before; and the others stay. */
  ghost predicate AnsweredRow(row: Tx, row': Tx, first: int, last: Attempt, code: SendCode) {
    && row'.from == row.from && row'.sequence == row.sequence
    && row'.state == (if code.TransactionAlreadyKnown? then ConfirmedMissingReceipt else row.state)
    && OthersKept(row, row', {first, last.id})
    && (first != last.id ==> first !in row'.attempts)
    && if code.Fatal? || code.ExceedsMaxFee? then last.id !in row'.attempts
       else
         && last.id in row'.attempts
         && row'.attempts[last.id] == last.(state := if code.InsufficientFunds? then AttemptInsufficientFunds else AttemptBroadcast)
  }

  lemma AnsweredAfterReplacement(row: Tx, sent: Tx, row': Tx, first: int, saved: Attempt, last: Attempt, code: SendCode)
    requires IsReplaced(row, sent, first, saved) && AnsweredRow(sent, row', saved.id, last, code)
    ensures AnsweredRow(row, row', first, last, code)
  {
  }

  lemma AnsweredAfterSaving(row: Tx, sent: Tx, row': Tx, attempt: Attempt, saved: Attempt, last: Attempt, code: SendCode)
    requires IsSaved(row, sent, attempt, saved) && AnsweredRow(sent, row', saved.id, last, code)
    ensures AnsweredRow(row, row', saved.id, last, code)
  {
  }

  /** What one transaction was sent again with: the attempts sent in turn, the question that
      priced the first of them, and the first question about them. */
  datatype Sending = Sending(sent: seq<Attempt>, priced: nat, asked: nat)

  class Confirmer {
    const store: ConfirmerStore
    const world: World
    const cfg: Config
    const enabledAddresses: seq<Addr>
    var ticks: nat
    var nConsecutiveBlocksChainTooShort: nat

    ghost predicate Valid()
      reads this, store
    {
      store.Valid() && 0 <= cfg.fee.bumpMin
    }

    constructor (store: ConfirmerStore, world: World, cfg: Config, enabledAddresses: seq<Addr>)
      requires store.Valid() && 0 <= cfg.fee.bumpMin
      ensures Valid() && this.store == store && this.cfg == cfg && this.enabledAddresses == enabledAddresses
    {
      this.store, this.world, this.cfg, this.enabledAddresses := store, world, cfg, enabledAddresses;
      this.ticks, this.nConsecutiveBlocksChainTooShort := 0, 0;
    }

    /** Time, as far as the Confirmer can notice: its store calls and its questions. */
    function Moment(): nat
      reads this, store
    {
      store.clock + ticks
    }

    /** ctx.Err() != nil: once true, it stays true. */
    predicate Cancelled(ctx: Context)
      reads this, store
    {
      ctx.cancelAt <= Moment()
    }

    method Ask() returns (n: nat)
      modifies this`ticks
      ensures n == old(ticks) && ticks == n + 1
    {
      n := ticks;
      ticks := ticks + 1;
    }

    // ---------------------------------------------------------------- sending

    /** The node called the attempt underpriced when it was asked the n-th time, and this is
        its replacement. */
    ghost predicate BumpedAt(n: nat, previous: Attempt, next: Attempt) {
      world.send(n).code.Underpriced? && next.txId == previous.txId
      && IsBump(previous, next, world.estimate(n), world.build(n), cfg.fee)
    }

    /** Attempts of one transaction, sent from the n-th question on, each but the first in
        place of the one before. */
    ghost predicate SentInTurn(sent: seq<Attempt>, n: nat) {
      sent != [] && forall k :: 0 <= k < |sent| - 1 ==> BumpedAt(n + k, sent[k], sent[k + 1])
    }

    lemma OneMoreSent(attempt: Attempt, sent: seq<Attempt>, n: nat)
      requires SentInTurn(sent, n + 1) && BumpedAt(n, attempt, sent[0])
      ensures SentInTurn([attempt] + sent, n)
    {
      var all := [attempt] + sent;
      forall k | 0 <= k < |all| - 1
        ensures BumpedAt(n + k, all[k], all[k + 1])
      {
        if k > 0 {
          assert BumpedAt(n + 1 + (k - 1), sent[k - 1], sent[k - 1 + 1]);
        }
      }
    }

    /** Whatever the market does, an attempt is replaced at most (cap - fee) / bumpMin times
        in one go, and each replacement is dearer and within the cap. */
    lemma FewReplacements(sent: seq<Attempt>, n: nat)
      requires SentInTurn(sent, n) && 0 <= cfg.fee.bumpMin
      ensures var last := sent[|sent| - 1];
        && sent[0].fee + (|sent| - 1) * cfg.fee.bumpMin <= last.fee
        && (|sent| > 1 ==> sent[0].fee < last.fee <= cfg.fee.Cap())
      ensures cfg.fee.bumpMin > 0 ==> |sent| - 1 <= Fee.BumpMeasure(sent[0].fee, cfg.fee) / cfg.fee.bumpMin
    {
      var fees := seq(|sent|, k requires 0 <= k < |sent| => sent[k].fee);
      var markets := seq(|sent| - 1, k requires 0 <= k < |sent| - 1 => PriceAt(n + k));
      forall k | 0 <= k < |markets|
        ensures Fee.CalculateBumpedFee(markets[k], fees[k], cfg.fee) == Fee.Bumped(fees[k + 1])
      {
        assert BumpedAt(n + k, sent[k], sent[k + 1]);
        assert markets[k] == PriceAt(n + k) && fees[k] == sent[k].fee && fees[k + 1] == sent[k + 1].fee;
      }
      Fee.ChainGrows(fees, markets, cfg.fee);
      if cfg.fee.bumpMin > 0 {
        Fee.BumpsAreBounded(fees, markets, cfg.fee);
      }
    }

    function PriceAt(n: nat): Option<int> { if world.estimate(n).Market? then world.estimate(n).price else None }

    /** The last attempt is settled as the n-th answer of the node calls for. */
    ghost predicate SettledBy(d: Db, d': Db, attempt: Attempt, last: Attempt, n: nat) {
      && Settles(world.send(n).code)
      && (attempt.txId in d'.txs ==>
            attempt.txId in d.txs && AnsweredRow(d.txs[attempt.txId], d'.txs[attempt.txId], attempt.id, last, world.send(n).code))
    }

    /** A price for the n-th question is refused, not to be had, or cannot be signed for. */
    ghost predicate NoBump(fee: int, n: nat) {
      || (exists e :: RefusesBump(world.estimate(n), fee, cfg.fee, e))
      || world.estimate(n).Unavailable? || world.build(n).NotBuilt?
    }

    /** How the last question, the n-th, about this attempt can end, when `f` calls of the
        store had failed before. */
    ghost predicate EndedBy(err: Option<Error>, last: Attempt, n: nat, f: nat)
      reads store
    {
      var code := world.send(n).code;
      if err.Some? && err.value.Store? then f < store.failures && (code.Underpriced? || Settles(code))
      else if code.Underpriced? then
        || (err == Some(BumpFailed) && NoBump(last.fee, n))
        || (err == Some(NoAttempts) && last.txId !in store.db.txs)
      else if Settles(code) then err.None?
      else err == Some(SendFailed(code))
    }

    /** An attempt that the node took or that ran out of funds was not sent after the time of
        the last broadcast, where there is one. */
    ghost predicate Timed(id: int, n: nat)
      reads store
    {
      var code := world.send(n).code;
      !code.Fatal? && !code.ExceedsMaxFee? && id in store.db.txs && store.db.txs[id].broadcastAt.Some? ==>
        world.now(n) <= store.db.txs[id].broadcastAt.value
    }

    /** Everything that became of an attempt that was sent from the n-th question on. */
    ghost predicate Handled(attempt: Attempt, d: Db, err: Option<Error>, sent: seq<Attempt>, n: nat, now: nat, f: nat)
      reads store
    {
      && SentInTurn(sent, n) && sent[0] == attempt && now == n + |sent|
      && EndedBy(err, sent[|sent| - 1], now - 1, f)
      && (err.None? ==>
            && store.Clear(attempt.txId) && Timed(attempt.txId, now - 1)
            && SettledBy(d, store.db, attempt, sent[|sent| - 1], now - 1))
    }

    /** Sends an in_progress attempt. No error means that nothing of its transaction is
        left unsent; underpriced attempts are replaced by bumped ones until the
        node takes one or the cap is reached, with one question for each. */
    method HandleInProgressAttempt(attempt: Attempt) returns (err: Option<Error>, ghost sent: seq<Attempt>)
      requires Valid() && (attempt.state.AttemptInProgress? ==> store.Sending(attempt))
      modifies this`ticks, store
      ensures store.After(old(store.trace), old(store.clock), old(store.failures)) && old(ticks) <= ticks
      ensures Framed(old(store.db), store.db, {attempt.txId})
      ensures if attempt.state.AttemptInProgress? then Handled(attempt, old(store.db), err, sent, old(ticks), ticks, old(store.failures))
              else err == Some(InvariantViolation)
      decreases Fee.BumpMeasure(attempt.fee, cfg.fee), 2
    {
      sent := [attempt];
      if !attempt.state.AttemptInProgress? {
        return Some(InvariantViolation), sent;
      }
      var n := Ask();
      var reply: SendReply := world.send(n);
      if reply.code.Underpriced? {
        err, sent := ReplaceUnderpriced(n, attempt);
      } else if Settles(reply.code) {
        err := Finish(attempt, VerdictOn(reply.code), world.now(n));
      } else {
        err := if reply.failed then Some(SendFailed(reply.code)) else None;
      }
    }

    /** Which of the store's calls settles the attempt. */
    function VerdictOn(code: SendCode): Verdict
      requires Settles(code)
    {
      match code
      case ExceedsMaxFee => Deleted
      case Fatal => Deleted
      case TransactionAlreadyKnown => MissingReceipt
      case InsufficientFunds => OutOfFunds
      case Successful => Sent
    }

    method Finish(attempt: Attempt, v: Verdict, now: int) returns (err: Option<Error>)
      requires Valid() && store.Sending(attempt)
      modifies store
      ensures store.After(old(store.trace), old(store.clock), old(store.failures))
      ensures Framed(old(store.db), store.db, {attempt.txId})
      ensures err.None? ==> store.Clear(attempt.txId)
      ensures err.None? && !v.Deleted? && attempt.txId in store.db.txs && store.db.txs[attempt.txId].broadcastAt.Some? ==>
                now <= store.db.txs[attempt.txId].broadcastAt.value
      ensures err.None? && attempt.txId in store.db.txs ==>
                && attempt.txId in old(store.db).txs
                && old(store.db).txs[attempt.txId].attempts[attempt.id] == attempt
                && AfterVerdict(old(store.db).txs[attempt.txId], store.db.txs[attempt.txId], attempt.id, v)
      ensures err.Some? ==> err == Some(Store(StoreFailed)) && old(store.failures) < store.failures
    {
      var e := store.FinishAttempt(attempt, v, now);
      err := if e.Some? then Some(Store(e.value)) else None;
    }

    /** The answer to the n-th question, the last one so far, was underpriced. */
    method ReplaceUnderpriced(n: nat, attempt: Attempt) returns (err: Option<Error>, ghost sent: seq<Attempt>)
      requires Valid() && store.Sending(attempt) && ticks == n + 1 && world.send(n).code.Underpriced?
      modifies this`ticks, store
      ensures store.After(old(store.trace), old(store.clock), old(store.failures)) && old(ticks) <= ticks
      ensures Framed(old(store.db), store.db, {attempt.txId})
      ensures Handled(attempt, old(store.db), err, sent, n, ticks, old(store.failures))
      decreases Fee.BumpMeasure(attempt.fee, cfg.fee), 1
    {
      ghost var start := store.db;
      sent := [attempt];
      var e, attempts := store.LoadTxAttempts(attempt.txId);
      if e.Some? {
        return Some(Store(e.value)), sent;
      }
      if |attempts| == 0 {
        assert attempt.txId !in store.db.txs;
        return Some(NoAttempts), sent;
      }
      assert RowOk(store.db, attempt.txId) && RowPriced(store.db.txs[attempt.txId]);
      FirstListedIsDearest(attempts, store.db.txs[attempt.txId], store.db.lastAttemptId);
      if attempt.id != attempts[0].id {
        return Some(NotTheDearest), sent;
      }
      ghost var loaded, t := store.db, store.trace;
      err, sent := ReplaceDearest(n, attempts[0]);
      HandledFromFound(attempt, start, loaded, err, sent, n, old(store.failures));
      ContinuedTransitive(old(store.trace), t, store.trace);
      FramedTransitive(start, loaded, store.db, {attempt.txId});
    }

    lemma HandledFromFound(attempt: Attempt, found: Db, d: Db, err: Option<Error>, sent: seq<Attempt>, n: nat, f: nat)
      requires Handled(attempt, d, err, sent, n, ticks, f)
      requires attempt.txId in d.txs && attempt.txId in found.txs && SameForUs(found.txs[attempt.txId], d.txs[attempt.txId])
      ensures Handled(attempt, found, err, sent, n, ticks, f)
    {
    }

    method ReplaceDearest(n: nat, attempt: Attempt) returns (err: Option<Error>, ghost sent: seq<Attempt>)
      requires Valid() && store.Sending(attempt) && ticks == n + 1 && world.send(n).code.Underpriced?
      modifies this`ticks, store
      ensures store.After(old(store.trace), old(store.clock), old(store.failures)) && old(ticks) <= ticks
      ensures Framed(old(store.db), store.db, {attempt.txId})
      ensures Handled(attempt, old(store.db), err, sent, n, ticks, old(store.failures))
      decreases Fee.BumpMeasure(attempt.fee, cfg.fee), 0
    {
      ghost var start := store.db;
      sent := [attempt];
      match NewBumpTxAttempt(attempt, attempt.txId, world.estimate(n), world.build(n), cfg.fee)
      case BumpRefused(_) | BumpNotBuilt(_) =>
        RelyIsFramed(start, start);
        err := Some(BumpFailed);
      case Bumped(replacement) =>
        BumpIsDearer(attempt, n, attempt.txId);
        var e, saved := store.SaveReplacementInProgressAttempt(attempt, replacement);
        if e.Some? {
          return Some(Store(e.value)), sent;
        }
        ghost var replaced, t := store.db, store.trace;
        ghost var more;
        err, more := HandleInProgressAttempt(saved);
        sent := [attempt] + more;
        HandledWithReplacement(attempt, saved, start, replaced, err, more, n, old(store.failures));
        ContinuedTransitive(old(store.trace), t, store.trace);
        FramedTransitive(start, replaced, store.db, {attempt.txId});
    }

    /** What became of the replacement is what became of the attempt. */
    lemma HandledWithReplacement(attempt: Attempt, saved: Attempt, d: Db, sent: Db, err: Option<Error>, more: seq<Attempt>, n: nat, f: nat)
      requires Handled(saved, sent, err, more, n + 1, ticks, f) && BumpedAt(n, attempt, saved)
      requires attempt.txId in d.txs && attempt.txId in sent.txs
      requires IsReplaced(d.txs[attempt.txId], sent.txs[attempt.txId], attempt.id, saved)
      ensures Handled(attempt, d, err, [attempt] + more, n, ticks, f)
    {
      OneMoreSent(attempt, more, n);
      var last := more[|more| - 1];
      assert ([attempt] + more)[|more|] == last;
      assert saved.txId == attempt.txId;
      if err.None? && attempt.txId in store.db.txs {
        AnsweredAfterReplacement(d.txs[attempt.txId], sent.txs[attempt.txId], store.db.txs[attempt.txId], attempt.id, saved, last,
                                 world.send(ticks - 1).code);
      }
    }

    lemma BumpIsDearer(previous: Attempt, n: nat, txId: int)
      requires 0 <= cfg.fee.bumpMin
      ensures var r := NewBumpTxAttempt(previous, txId, world.estimate(n), world.build(n), cfg.fee);
              r.Bumped? ==> previous.fee < r.attempt.fee
    {
    }

    /** An error has a cause: a call of the store that failed, or an answer to one of the
        questions since the t-th; `f` calls had failed before. */
    ghost predicate Caused(err: Error, t: nat, f: nat)
      reads this, store
    {
      CausedWithin(err, t, f, ticks, store.failures)
    }

    ghost predicate CausedWithin(err: Error, t: nat, f: nat, now: nat, failures: nat) {
      if err.Store? then f < failures else exists n :: t <= n < now && Causes(n, err)
    }

    ghost predicate Causes(n: nat, err: Error) {
      match err
      case SendFailed(code) => world.send(n).code == code && !code.Underpriced? && !Settles(code)
      case BumpFailed => exists fee :: NoBump(fee, n)
      case NoAttempts => world.send(n).code.Underpriced?
      case MinedSequence => world.minedSequence(n).None?
      case FetchFailed => world.fetchFails(n)
      case _ => false
    }

    lemma CausedBefore(err: Option<Error>, t: nat, f: nat, t': nat, f': nat)
      requires t' <= t && f' <= f && (err.Some? ==> Caused(err.value, t, f))
      ensures err.Some? ==> Caused(err.value, t', f')
    {
    }

    lemma HandledIsCaused(attempt: Attempt, d: Db, err: Option<Error>, sent: seq<Attempt>, n: nat, f: nat)
      requires Handled(attempt, d, err, sent, n, ticks, f)
      ensures err.Some? ==> Caused(err.value, n, f)
    {
      if err.Some? && !err.value.Store? {
        assert Causes(ticks - 1, err.value);
      }
    }

    // ------------------------------------------------------------- leftovers

    /** The attempt was sent, or after underpriced answers replacements of it, and its row is
        what the last answer made of it. */
    ghost predicate SentAndAnswered(d: Db, d': Db, attempt: Attempt, sent: seq<Attempt>, n: nat) {
      SentInTurn(sent, n) && sent[0] == attempt && SettledBy(d, d', attempt, sent[|sent| - 1], n + |sent| - 1)
    }

    ghost predicate WasSent(d: Db, d': Db, attempt: Attempt) { exists sent, n: nat :: SentAndAnswered(d, d', attempt, sent, n) }

    /** Every leftover of the key was sent, and no other transaction was written. */
    ghost predicate Swept(seen: Db, d: Db, key: Addr) {
      && Framed(seen, d, UnsentIds(seen, key))
      && forall id, a :: Leftover(seen, key, id, a) ==> WasSent(seen, d, seen.txs[id].attempts[a])
    }

    /** The loop over the leftovers before the i-th: those before it were sent, and the rows of
        the others are as they were seen. */
    ghost predicate SweptUpTo(seen: Db, d: Db, attempts: seq<Attempt>, i: nat, key: Addr) {
      && i <= |attempts| && ToSend(d, attempts, i, key) && Framed(seen, d, UnsentIds(seen, key))
      && (forall k :: 0 <= k < |attempts| ==> Care(d, attempts[k].txId) && attempts[k].txId in UnsentIds(seen, key))
      && (forall j, k :: 0 <= j < k < |attempts| ==> attempts[j].txId != attempts[k].txId)
      && (forall k :: 0 <= k < i ==> WasSent(seen, d, attempts[k]))
      && (forall k :: i <= k < |attempts| && attempts[k].txId in d.txs ==> SameForUs(seen.txs[attempts[k].txId], d.txs[attempts[k].txId]))
    }

    lemma OneMoreSwept(seen: Db, d: Db, d': Db, attempts: seq<Attempt>, i: nat, key: Addr, sent: seq<Attempt>, n: nat)
      requires SweptUpTo(seen, d, attempts, i, key) && i < |attempts|
      requires Framed(d, d', {attempts[i].txId}) && SentAndAnswered(d, d', attempts[i], sent, n)
      requires attempts[i].txId in d'.txs ==> forall a :: !Unsent(d'.txs[attempts[i].txId], a)
      ensures SweptUpTo(seen, d', attempts, i + 1, key)
    {
      OneFewerToSend(d, d', attempts, i, key);
      FramedOneMore(seen, d, d', UnsentIds(seen, key), attempts[i].txId);
      forall k | 0 <= k < i + 1
        ensures WasSent(seen, d', attempts[k])
      {
        if k < i {
          assert WasSent(seen, d, attempts[k]);
          var s: seq<Attempt>, m: nat :| SentAndAnswered(seen, d, attempts[k], s, m);
          assert SentAndAnswered(seen, d', attempts[k], s, m);
        } else {
          assert SentAndAnswered(seen, d', attempts[i], sent, n);
        }
      }
    }

    lemma AllSwept(seen: Db, d: Db, attempts: seq<Attempt>, key: Addr)
      requires SweptUpTo(seen, d, attempts, |attempts|, key)
      requires forall id, a :: Leftover(seen, key, id, a) ==> exists k :: 0 <= k < |attempts| && attempts[k] == seen.txs[id].attempts[a]
      ensures NoLeftovers(d, key) && Swept(seen, d, key)
    {
    }

    /** Sends what a crash, an error or a re-org left in_progress; `seen` is the database when
        that was looked up. Without an error, and unless the context was cancelled
        meanwhile, each was sent and nothing of the key is left. */
    method HandleAnyInProgressAttempts(ctx: Context, key: Addr) returns (err: Option<Error>, ghost seen: Db)
      requires Valid()
      modifies this`ticks, store
      ensures store.After(old(store.trace), old(store.clock), old(store.failures)) && old(ticks) <= ticks
      ensures KeyFramed(old(store.db), store.db, key) && Framed(old(store.db), seen, {})
      ensures err.None? && !Cancelled(ctx) ==> NoLeftovers(store.db, key) && Swept(seen, store.db, key)
      ensures err.Some? ==> Caused(err.value, old(ticks), old(store.failures))
      ensures old(Cancelled(ctx)) ==> ticks == old(ticks)
    {
      ghost var start := store.db;
      var e, attempts := store.GetInProgressTxAttempts(key);
      seen := store.db;
      FramedToKey(start, seen, {}, key);
      if Cancelled(ctx) {
        return None, seen;
      } else if e.Some? {
        return Some(Store(e.value)), seen;
      }
      RelyIsFramed(seen, seen);
      NoneSweptYet(seen, attempts, key);
      for i := 0 to |attempts|
        invariant store.After(old(store.trace), old(store.clock), old(store.failures)) && old(ticks) <= ticks
        invariant KeyFramed(start, store.db, key)
        invariant SweptUpTo(seen, store.db, attempts, i, key)
        invariant !old(Cancelled(ctx))
      {
        ghost var before, t, n, f := store.db, store.trace, ticks, store.failures;
        err := SendLeftover(seen, attempts, i, key);
        ContinuedTransitive(old(store.trace), t, store.trace);
        KeyFramedTransitive(start, before, store.db, key);
        if Cancelled(ctx) {
          return None, seen;
        } else if err.Some? {
          CausedBefore(err, n, f, old(ticks), old(store.failures));
          return err, seen;
        }
      }
      AllSwept(seen, store.db, attempts, key);
      err := None;
    }

    /** One round of that loop. */
    method SendLeftover(ghost seen: Db, attempts: seq<Attempt>, i: nat, ghost key: Addr) returns (err: Option<Error>)
      requires Valid() && i < |attempts| && SweptUpTo(seen, store.db, attempts, i, key)
      modifies this`ticks, store
      ensures store.After(old(store.trace), old(store.clock), old(store.failures)) && old(ticks) <= ticks
      ensures KeyFramed(old(store.db), store.db, key)
      ensures err.None? ==> SweptUpTo(seen, store.db, attempts, i + 1, key)
      ensures err.Some? ==> Caused(err.value, old(ticks), old(store.failures))
    {
      ghost var before, n, f := store.db, ticks, store.failures;
      ghost var sent;
      err, sent := HandleInProgressAttempt(attempts[i]);
      HandledIsCaused(attempts[i], before, err, sent, n, f);
      ToSendIsOfKey(before, store.db, attempts, i, key);
      if err.None? {
        OneMoreSwept(seen, before, store.db, attempts, i, key, sent, n);
      }
    }

    lemma NoneSweptYet(seen: Db, attempts: seq<Attempt>, key: Addr)
      requires Inv(seen) && Framed(seen, seen, {})
      requires forall k :: 0 <= k < |attempts| ==> SendingIn(seen, attempts[k]) && attempts[k].txId in UnsentIds(seen, key)
      requires forall j, k :: 0 <= j < k < |attempts| ==> attempts[j].txId != attempts[k].txId
      requires forall id, a :: Leftover(seen, key, id, a) ==> exists k :: 0 <= k < |attempts| && attempts[k].txId == id
      ensures SweptUpTo(seen, seen, attempts, 0, key)
    {
    }

    // --------------------------------------------------------- rebroadcasting

    /** Bumps and resubmissions that are due, by sequence and at most maxInFlight of
        them. `q` keeps what the two queries found, and when. */
    method FindTxsRequiringRebroadcast(ctx: Context, key: Addr, blockNum: int)
      returns (err: Option<Error>, etxs: seq<Loaded>, ghost q: Queries)
      requires Valid()
      modifies store
      ensures store.After(old(store.trace), old(store.clock), old(store.failures))
      ensures Framed(old(store.db), store.db, {})
      ensures forall k :: 0 <= k < |etxs| ==> store.Fresh(etxs[k]) && store.OfKey(key, etxs[k].tx.id)
      ensures DistinctIds(etxs)
      ensures err.Some? || Cancelled(ctx) ==> etxs == []
      ensures err.Some? ==> err.value.Store? && old(store.failures) < store.failures
      ensures err.None? && !Cancelled(ctx) ==> Framed(old(store.db), q.first, {}) && Found(q, store.db, etxs, key, blockNum)
    {
      ghost var start := store.db;
      q, etxs := Queries([], [], start), [];
      var e, insufficient := store.FindTxsRequiringResubmissionDueToInsufficientFunds(key);
      ghost var first := store.db;
      if e.Some? {
        return Some(Store(e.value)), [], q;
      }
      ghost var t := store.trace;
      var e', bumps := store.FindTxsRequiringGasBump(key, blockNum, cfg.bumpThreshold, cfg.bumpDepth);
      ContinuedTransitive(old(store.trace), t, store.trace);
      q := Queries(insufficient, bumps, first);
      FramedTransitive(start, first, store.db, {});
      if Cancelled(ctx) {
        return None, [], q;
      } else if e'.Some? {
        return Some(Store(e'.value)), [], q;
      }
      etxs := MergeForRebroadcast(insufficient, bumps, cfg.maxInFlight);
      forall k | 0 <= k < |etxs|
        ensures store.Fresh(etxs[k]) && store.OfKey(key, etxs[k].tx.id)
      {
        assert InUnion(insufficient, bumps, etxs[k]);
        if etxs[k] in insufficient {
          FreshSurvives(etxs[k], first);
        }
      }
      err := None;
    }

    /** What was loaded stays true while the Confirmer writes nothing. */
    lemma FreshSurvives(e: Loaded, d: Db)
      requires Framed(d, store.db, {}) && FreshIn(d, e)
      ensures store.Fresh(e)
    {
    }

    /** The attempt to send next, as far as its identifier is known already: the dearest one
        again if it ran out of funds or a bump was refused, and then to be stamped anew,
        and otherwise its replacement at the next price. */
    ghost predicate NextAttempt(e: Loaded, next: Attempt, n: nat) {
      && e.attempts != []
      && var dearest := e.attempts[0];
         if dearest.state.AttemptInsufficientFunds? then next == dearest.(state := AttemptInProgress)
         else || ((exists e :: RefusesBump(world.estimate(n), dearest.fee, cfg.fee, e))
                  && next == dearest.(broadcastBefore := None, state := AttemptInProgress))
              || (next.txId == e.tx.id && IsBump(dearest, next, world.estimate(n), world.build(n), cfg.fee))
    }

    method AttemptForRebroadcast(e: Loaded) returns (err: Option<Error>, attempt: Attempt)
      requires Valid()
      modifies this`ticks
      ensures old(ticks) <= ticks
      ensures e.attempts == [] <==> err == Some(InvariantViolation)
      ensures err.None? ==> NextAttempt(e, attempt, old(ticks)) && Chosen(e, attempt)
      ensures err.Some? && e.attempts != [] ==>
        && err == Some(BumpFailed) && ticks == old(ticks) + 1 && !e.attempts[0].state.AttemptInsufficientFunds?
        && (world.estimate(old(ticks)).Unavailable? || world.build(old(ticks)).NotBuilt?)
    {
      if |e.attempts| > 0 {
        var previous := e.attempts[0];
        if previous.state.AttemptInsufficientFunds? {
          return None, previous.(state := AttemptInProgress);
        }
        var n := Ask();
        BumpIsDearer(previous, n, e.tx.id);
        match NewBumpTxAttempt(previous, e.tx.id, world.estimate(n), world.build(n), cfg.fee)
        case BumpRefused(_) =>
          return None, previous.(broadcastBefore := None, state := AttemptInProgress);
        case BumpNotBuilt(_) =>
          return Some(BumpFailed), previous;
        case Bumped(bumped) =>
          return None, bumped;
      }
      attempt := *;
      err := Some(InvariantViolation);
    }

    /** What makes the attempt fit to be saved. */
    ghost predicate Chosen(e: Loaded, attempt: Attempt) {
      && |e.attempts| > 0
      && attempt.state.AttemptInProgress?
      && (attempt == e.attempts[0].(state := AttemptInProgress)
          || attempt == e.attempts[0].(state := AttemptInProgress, broadcastBefore := None)
          || (attempt.id == 0 && attempt.txId == e.tx.id && e.attempts[0].fee < attempt.fee))
    }

    lemma ChosenIsDearest(e: Loaded, attempt: Attempt)
      requires Valid() && store.Fresh(e) && Chosen(e, attempt)
      ensures attempt.txId == e.tx.id && (store.Clear(e.tx.id) ==> ToBeSent(store.db, attempt))
      ensures e.tx.id in store.db.txs ==> e.attempts[0].id != 0
      ensures e.tx.id in store.db.txs && attempt.id != 0 ==>
        && attempt.id == e.attempts[0].id && attempt.id in store.db.txs[e.tx.id].attempts
        && store.db.txs[e.tx.id].attempts[attempt.id] == e.attempts[0]
    {
      if e.tx.id in store.db.txs {
        var tx := store.db.txs[e.tx.id];
        assert RowOk(store.db, e.tx.id) && RowPriced(tx);
        FirstListedIsDearest(e.attempts, tx, store.db.lastAttemptId);
        assert e.attempts[0].id in tx.attempts;
      }
    }

    /** The transaction was sent again with the attempt that is next, or after underpriced
        answers with replacements of it, and its row is what the last answer made of it. */
    ghost predicate Resent(d: Db, d': Db, e: Loaded, r: Sending) {
      && SentInTurn(r.sent, r.asked) && NextAttempt(e, r.sent[0], r.priced)
      && var code := world.send(r.asked + |r.sent| - 1).code;
         && Settles(code)
         && (e.tx.id in d'.txs ==>
               e.tx.id in d.txs && AnsweredRow(d.txs[e.tx.id], d'.txs[e.tx.id], r.sent[0].id, r.sent[|r.sent| - 1], code))
    }

    /** Saves the next attempt of one transaction and sends it. */
    method Rebroadcast(e: Loaded, ghost key: Addr) returns (err: Option<Error>, ghost r: Sending)
      requires Valid() && store.Fresh(e) && store.OfKey(key, e.tx.id) && store.Clear(e.tx.id)
      modifies this`ticks, store
      ensures store.After(old(store.trace), old(store.clock), old(store.failures)) && old(ticks) <= ticks
      ensures Framed(old(store.db), store.db, {e.tx.id})
      ensures err.None? ==> store.Clear(e.tx.id) && Resent(old(store.db), store.db, e, r) && ticks > 0 && Timed(e.tx.id, ticks - 1)
      ensures err == Some(InvariantViolation) <==> e.attempts == []
      ensures err.Some? && e.attempts != [] ==> Caused(err.value, old(ticks), old(store.failures))
    {
      ghost var start, n := store.db, ticks;
      var failed, attempt := AttemptForRebroadcast(e);
      r := Sending([attempt], n, ticks);
      if failed.Some? {
        RelyIsFramed(start, start);
        assert e.attempts != [] ==> NoBump(e.attempts[0].fee, n) && Causes(n, BumpFailed);
        return failed, r;
      }
      err, r := SaveAndSend(e, attempt, n);
    }

    method SaveAndSend(e: Loaded, attempt: Attempt, ghost priced: nat) returns (err: Option<Error>, ghost r: Sending)
      requires Valid() && store.Fresh(e) && store.Clear(e.tx.id) && Chosen(e, attempt) && NextAttempt(e, attempt, priced) && priced <= ticks
      modifies this`ticks, store
      ensures store.After(old(store.trace), old(store.clock), old(store.failures)) && old(ticks) <= ticks
      ensures Framed(old(store.db), store.db, {e.tx.id})
      ensures err.None? ==> store.Clear(e.tx.id) && Resent(old(store.db), store.db, e, r) && ticks > 0 && Timed(e.tx.id, ticks - 1)
      ensures err.Some? ==> Caused(err.value, old(ticks), old(store.failures))
    {
      ghost var start, n, f := store.db, ticks, store.failures;
      ChosenIsDearest(e, attempt);
      var e', saved := store.SaveInProgressAttempt(attempt);
      r := Sending([saved], priced, n);
      if e'.Some? {
        return Some(Store(e'.value)), r;
      }
      ghost var before, t := store.db, store.trace;
      ghost var sent;
      err, sent := HandleInProgressAttempt(saved);
      r := Sending(sent, priced, n);
      SentIsResent(start, before, e, attempt, saved, r, err, f);
      ContinuedTransitive(old(store.trace), t, store.trace);
      FramedTransitive(start, before, store.db, {e.tx.id});
    }

    lemma SentIsResent(d: Db, sent: Db, e: Loaded, attempt: Attempt, saved: Attempt, r: Sending, err: Option<Error>, f: nat)
      requires NextAttempt(e, attempt, r.priced) && Chosen(e, attempt) && saved.txId == attempt.txId == e.tx.id
      requires e.tx.id in d.txs && e.tx.id in sent.txs && IsSaved(d.txs[e.tx.id], sent.txs[e.tx.id], attempt, saved)
      requires attempt.id != 0 ==> attempt.id in d.txs[e.tx.id].attempts && d.txs[e.tx.id].attempts[attempt.id] == e.attempts[0]
      requires e.attempts[0].id != 0
      requires Handled(saved, sent, err, r.sent, r.asked, ticks, f)
      ensures err.None? ==> store.Clear(e.tx.id) && Resent(d, store.db, e, r) && ticks > 0 && Timed(e.tx.id, ticks - 1)
      ensures err.Some? ==> Caused(err.value, r.asked, f)
    {
      HandledIsCaused(saved, sent, err, r.sent, r.asked, f);
      if err.None? && e.tx.id in store.db.txs {
        AnsweredAfterSaving(d.txs[e.tx.id], sent.txs[e.tx.id], store.db.txs[e.tx.id], attempt, saved, r.sent[|r.sent| - 1],
                            world.send(r.asked + |r.sent| - 1).code);
      }
    }

    /** The first i transactions were sent again; the rows of the others are as found. */
    ghost predicate ResentUpTo(found: Db, d: Db, etxs: seq<Loaded>, i: nat) {
      && i <= |etxs|
      && (forall k :: 0 <= k < i ==> WasResent(found, d, etxs[k]))
      && (forall k :: i <= k < |etxs| && etxs[k].tx.id in d.txs ==>
            etxs[k].tx.id in found.txs && SameForUs(found.txs[etxs[k].tx.id], d.txs[etxs[k].tx.id]))
    }

    ghost predicate WasResent(found: Db, d: Db, e: Loaded) { exists r :: Resent(found, d, e, r) }

    lemma OneMoreResent(found: Db, d: Db, d': Db, etxs: seq<Loaded>, i: nat, r: Sending)
      requires i < |etxs| && ResentUpTo(found, d, etxs, i) && DistinctIds(etxs)
      requires forall k :: 0 <= k < |etxs| ==> Care(d, etxs[k].tx.id)
      requires Framed(d, d', {etxs[i].tx.id}) && Resent(d, d', etxs[i], r)
      ensures ResentUpTo(found, d', etxs, i + 1)
    {
      forall k | 0 <= k < i + 1
        ensures WasResent(found, d', etxs[k])
      {
        if k < i {
          assert WasResent(found, d, etxs[k]);
          var r' :| Resent(found, d, etxs[k], r');
          assert Resent(found, d', etxs[k], r');
        } else {
          assert Resent(found, d', etxs[i], r);
        }
      }
    }

    /** One key: leftovers first, then everything that is due, in order. At every way out
        without an error, unless cancelled, nothing of the key is left in_progress,
        and each due transaction was sent again; an invariant violation is reported
        only for one that has no attempts. */
    method RebroadcastWhereNecessary(ctx: Context, key: Addr, blockNum: int) returns (err: Option<Error>, ghost r: KeyRound)
      requires Valid()
      modifies this`ticks, store
      ensures store.After(old(store.trace), old(store.clock), old(store.failures)) && old(ticks) <= ticks
      ensures r.start == old(store.db) && r.end == store.db && KeyFramed(r.start, r.end, key)
      ensures err.None? && !Cancelled(ctx) ==> Completed(r, key, Some(blockNum))
      ensures err.Some? ==> BareOrCaused(err.value, r.due, old(ticks), old(store.failures))
      ensures old(Cancelled(ctx)) ==> ticks == old(ticks)
    {
      ghost var start, seen := store.db, store.db;
      err, seen := HandleAnyInProgressAttempts(ctx, key);
      ghost var swept, t := store.db, store.trace;
      r := KeyRound(start, seen, swept, Queries([], [], start), swept, [], swept);
      if err.Some? {
        return;
      }
      ghost var q;
      var e, etxs;
      e, etxs, q := FindTxsRequiringRebroadcast(ctx, key, blockNum);
      ContinuedTransitive(old(store.trace), t, store.trace);
      ghost var found := store.db;
      r := KeyRound(start, seen, swept, q, found, etxs, found);
      FramedToKey(swept, found, {}, key);
      KeyFramedTransitive(start, swept, found, key);
      if e.Some? {
        return e, r;
      }
      assert !Cancelled(ctx) ==> NoLeftovers(found, key) by {
        assert forall id, a :: Leftover(found, key, id, a) ==> Leftover(swept, key, id, a);
      }
      RelyIsFramed(found, found);
      if |etxs| > 0 {
        ghost var t2, n, f := store.trace, ticks, store.failures;
        err := RebroadcastEach(etxs, key);
        ContinuedTransitive(old(store.trace), t2, store.trace);
        KeyFramedTransitive(start, found, store.db, key);
        r := r.(end := store.db);
        if err.Some? && !err.value.InvariantViolation? {
          CausedBefore(err, n, f, old(ticks), old(store.failures));
        }
      }
    }

    /** What was done for the key: its leftovers were sent, and at a head each transaction that
        was due was sent again after that. */
    ghost predicate Completed(r: KeyRound, key: Addr, head: Option<int>) {
      && NoLeftovers(r.end, key)
      && Framed(r.start, r.seen, {}) && Swept(r.seen, r.swept, key)
      && match head
         case None => r.end == r.swept
         case Some(blockNum) =>
           Framed(r.swept, r.found, {}) && Found(r.q, r.found, r.due, key, blockNum) && AllResent(r.found, r.end, r.due)
    }

    ghost function IdsOf(etxs: seq<Loaded>): set<int> { set k | 0 <= k < |etxs| :: etxs[k].tx.id }

    /** Each of them was sent again, and no other transaction was written. */
    ghost predicate AllResent(found: Db, d: Db, due: seq<Loaded>) {
      && Framed(found, d, IdsOf(due))
      && forall k :: 0 <= k < |due| ==> WasResent(found, d, due[k])
    }

    /** The error of a transaction without attempts, or one with another cause. */
    ghost predicate BareOrCaused(err: Error, due: seq<Loaded>, t: nat, f: nat)
      reads this, store
    {
      if err.InvariantViolation? then HasBare(due) else Caused(err, t, f)
    }

    /** The loop over the transactions that are due. */
    method RebroadcastEach(etxs: seq<Loaded>, ghost key: Addr) returns (err: Option<Error>)
      requires Valid() && DistinctIds(etxs) && Due(store.db, etxs, 0, key) && NoLeftovers(store.db, key)
      modifies this`ticks, store
      ensures store.After(old(store.trace), old(store.clock), old(store.failures)) && old(ticks) <= ticks
      ensures KeyFramed(old(store.db), store.db, key)
      ensures err.None? ==> NoLeftovers(store.db, key) && AllResent(old(store.db), store.db, etxs)
      ensures err.Some? ==> BareOrCaused(err.value, etxs, old(ticks), old(store.failures))
    {
      ghost var start := store.db;
      err := None;
      FramedToKey(start, start, {}, key) by { RelyIsFramed(start, start); }
      for i := 0 to |etxs|
        invariant store.After(old(store.trace), old(store.clock), old(store.failures)) && old(ticks) <= ticks
        invariant KeyFramed(start, store.db, key) && NoLeftovers(store.db, key)
        invariant StillDue(start, store.db, etxs, i, key)
      {
        ghost var before := store.db;
        NoLeftoversIsClear(before, etxs[i], key);
        ghost var r;
        ghost var t, n, f := store.trace, ticks, store.failures;
        err, r := Rebroadcast(etxs[i], key);
        if err.None? {
          NextIsDue(start, before, store.db, etxs, i, key, r);
        }
        ContinuedTransitive(old(store.trace), t, store.trace);
        DueIsOfKey(before, store.db, etxs, i, key);
        KeyFramedTransitive(start, before, store.db, key);
        if err.Some? {
          if etxs[i].attempts != [] {
            CausedBefore(err, n, f, old(ticks), old(store.failures));
          }
          return;
        }
      }
      err := None;
    }

    /** The loop of RebroadcastEach before the i-th transaction. */
    ghost predicate StillDue(start: Db, d: Db, etxs: seq<Loaded>, i: nat, key: Addr) {
      && Due(d, etxs, i, key) && ResentUpTo(start, d, etxs, i) && Framed(start, d, IdsOf(etxs))
      && forall k :: 0 <= k < |etxs| ==> Care(d, etxs[k].tx.id)
    }

    lemma NextIsDue(start: Db, d: Db, d': Db, etxs: seq<Loaded>, i: nat, key: Addr, r: Sending)
      requires i < |etxs| && StillDue(start, d, etxs, i, key) && DistinctIds(etxs) && NoLeftovers(d, key)
      requires Framed(d, d', {etxs[i].tx.id}) && Resent(d, d', etxs[i], r)
      requires etxs[i].tx.id in d'.txs ==> forall a :: !Unsent(d'.txs[etxs[i].tx.id], a)
      ensures StillDue(start, d', etxs, i + 1, key) && NoLeftovers(d', key)
    {
      OneFewerDue(d, d', etxs, i, key);
      OneMoreResent(start, d, d', etxs, i, r);
      assert etxs[i].tx.id in IdsOf(etxs);
      FramedOneMore(start, d, d', IdsOf(etxs), etxs[i].tx.id);
    }

    /** What the two queries found, and the transactions that are due because of it. */
    ghost predicate Found(q: Queries, d: Db, due: seq<Loaded>, key: Addr, blockNum: int) {
      && Merged(q.insufficient, q.bumps, cfg.maxInFlight, due)
      && Framed(q.first, d, {})
      && (forall k :: 0 <= k < |q.bumps| ==> FreshIn(d, q.bumps[k]))
      && (forall k :: 0 <= k < |due| ==> FreshIn(d, due[k]))
      && (forall id :: id in InsufficientIds(q.first, key) <==> HasId(q.insufficient, id))
      && (forall id :: id in GasBumpIds(d, key, blockNum, cfg.bumpThreshold, cfg.bumpDepth) <==> HasId(q.bumps, id))
    }

    /** A transaction that lost all its attempts is due for a bump as soon as bumping is
        switched on and it is within the depth. */
    lemma BareIsDue(d: Db, key: Addr, id: int, blockNum: int)
      requires InState(d, key, Unconfirmed, id) && Bare(d.txs[id]) && cfg.bumpThreshold != 0
      ensures id in GasBumpIds(d, key, blockNum, cfg.bumpThreshold, cfg.bumpDepth)
         <==> cfg.bumpDepth == 0 || |LowerUnconfirmed(d, key, id)| < cfg.bumpDepth
    {
    }

    /** Such a transaction stops its key: the rebroadcasts get past it only when the limit
        is used up by transactions with sequences up to its own. */
    lemma BareStopsTheKey(q: Queries, found: Db, d: Db, due: seq<Loaded>, key: Addr, blockNum: int, id: int)
      requires Found(q, found, due, key, blockNum) && forall k :: 0 <= k < |due| ==> WasResent(found, d, due[k])
      requires id in GasBumpIds(found, key, blockNum, cfg.bumpThreshold, cfg.bumpDepth) && Bare(found.txs[id])
      requires Care(q.first, id)
      ensures exists e :: e in q.bumps && e.tx.id == id && e !in due
                       && 0 < cfg.maxInFlight == |due| && forall f :: f in due ==> Seq(f) <= Seq(e)
    {
      assert HasId(q.bumps, id);
      var k :| 0 <= k < |q.bumps| && q.bumps[k].tx.id == id;
      var e := q.bumps[k];
      assert FreshIn(found, e);
      ListedExists(e.attempts, found.txs[id].attempts);
      assert e.attempts == [];
      assert !HasId(q.insufficient, id) by {
        assert id !in InsufficientIds(q.first, key);
      }
      assert InUnion(q.insufficient, q.bumps, e);
      forall j | 0 <= j < |due|
        ensures due[j] != e
      {
        assert WasResent(found, d, due[j]);
      }
    }

    lemma NoLeftoversIsClear(db: Db, e: Loaded, key: Addr)
      requires NoLeftovers(db, key) && FreshIn(db, e) && (e.tx.id in db.txs ==> db.txs[e.tx.id].from == key)
      ensures e.tx.id in db.txs ==> forall a :: !Unsent(db.txs[e.tx.id], a)
    {
      forall a | e.tx.id in db.txs && Unsent(db.txs[e.tx.id], a)
        ensures false
      {
        assert Leftover(db, key, e.tx.id, a);
      }
    }

    // -------------------------------------------------------------- all keys

    /** What the goroutine of this key achieved, if it ended without an error. */
    ghost predicate RoundOf(r: KeyRound, err: Option<Error>, key: Addr, head: Option<int>) {
      KeyFramed(r.start, r.end, key) && (err.None? ==> Completed(r, key, head))
    }

    /** The first keys had their rounds, one after the other, from d to d'. */
    ghost predicate InTurn(d: Db, errs: seq<Option<Error>>, rounds: seq<KeyRound>, d': Db, head: Option<int>)
      requires |errs| == |rounds| <= |enabledAddresses|
    {
      if rounds == [] then d' == d
      else
        var n := |rounds| - 1;
        && RoundOf(rounds[n], errs[n], enabledAddresses[n], head) && rounds[n].end == d'
        && InTurn(d, errs[..n], rounds[..n], rounds[n].start, head)
    }

    lemma {:induction false} InTurnAt(d: Db, errs: seq<Option<Error>>, rounds: seq<KeyRound>, d': Db, head: Option<int>, i: nat)
      requires |errs| == |rounds| <= |enabledAddresses| && i < |rounds| && InTurn(d, errs, rounds, d', head)
      ensures RoundOf(rounds[i], errs[i], enabledAddresses[i], head)
      ensures rounds[i].start == if i == 0 then d else rounds[i - 1].end
      decreases |rounds|
    {
      var n := |rounds| - 1;
      if i < n {
        InTurnAt(d, errs[..n], rounds[..n], rounds[n].start, head, i);
      }
    }

    lemma OneMoreInTurn(d: Db, errs: seq<Option<Error>>, rounds: seq<KeyRound>, err: Option<Error>, r: KeyRound, head: Option<int>)
      requires |errs| == |rounds| < |enabledAddresses| && InTurn(d, errs, rounds, r.start, head)
      requires RoundOf(r, err, enabledAddresses[|errs|], head)
      ensures InTurn(d, errs + [err], rounds + [r], r.end, head)
    {
      assert (errs + [err])[..|errs|] == errs && (rounds + [r])[..|rounds|] == rounds;
    }

    /** The keys done so far; one that ended without errors, however often it is listed, has
        no leftovers, whatever the others ended in. */
    ghost predicate KeysDone(d: Db, errs: seq<Option<Error>>) {
      && |errs| <= |enabledAddresses|
      && forall key :: key in enabledAddresses[..|errs|] && WithoutError(errs, key) ==> NoLeftovers(d, key)
    }

    ghost predicate WithoutError(errs: seq<Option<Error>>, key: Addr)
      requires |errs| <= |enabledAddresses|
    {
      forall j :: 0 <= j < |errs| && enabledAddresses[j] == key ==> errs[j].None?
    }

    lemma OneMoreKey(d: Db, d': Db, errs: seq<Option<Error>>, err: Option<Error>)
      requires |errs| < |enabledAddresses| && KeysDone(d, errs) && KeyFramed(d, d', enabledAddresses[|errs|])
      requires err.None? ==> NoLeftovers(d', enabledAddresses[|errs|])
      ensures KeysDone(d', errs + [err])
    {
      var n, more := |errs|, errs + [err];
      OtherKeysStayClean(d, d', enabledAddresses[n]);
      assert enabledAddresses[..n + 1] == enabledAddresses[..n] + [enabledAddresses[n]];
      forall key | key in enabledAddresses[..n + 1] && WithoutError(more, key)
        ensures NoLeftovers(d', key)
      {
        if key == enabledAddresses[n] {
          assert more[n].None?;
        } else {
          forall j | 0 <= j < n && enabledAddresses[j] == key
            ensures errs[j].None?
          {
            assert more[j] == errs[j];
          }
        }
      }
    }

    lemma AllKeysDone(d: Db, errs: seq<Option<Error>>)
      requires |errs| == |enabledAddresses| && KeysDone(d, errs)
      ensures ErrorsOf(errs) == [] ==> forall key :: key in enabledAddresses ==> NoLeftovers(d, key)
    {
      NoErrorsIff(errs);
      assert enabledAddresses[..|enabledAddresses|] == enabledAddresses;
    }

    /** No key reported an error without a cause. */
    ghost predicate AllCaused(errs: seq<Option<Error>>, rounds: seq<KeyRound>, t: nat, f: nat, now: nat, failures: nat)
      requires |errs| == |rounds|
    {
      forall i :: 0 <= i < |errs| && errs[i].Some? ==>
        if errs[i].value.InvariantViolation? then HasBare(rounds[i].due)
        else CausedWithin(errs[i].value, t, f, now, failures)
    }

    lemma OneMoreCaused(errs: seq<Option<Error>>, rounds: seq<KeyRound>, err: Option<Error>, r: KeyRound,
                        t: nat, f: nat, t': nat, f': nat, now: nat, failures: nat)
      requires |errs| == |rounds| && t <= t' <= now && f <= f' <= failures && AllCaused(errs, rounds, t, f, t', f')
      requires err.Some? ==> if err.value.InvariantViolation? then HasBare(r.due)
                             else CausedWithin(err.value, t', f', now, failures)
      ensures AllCaused(errs + [err], rounds + [r], t, f, now, failures)
    {
    }

    ghost predicate NoneForNothing(errs: seq<Option<Error>>, t: nat, f: nat, now: nat, failures: nat) {
      forall i :: 0 <= i < |errs| && errs[i].Some? ==> CausedWithin(errs[i].value, t, f, now, failures)
    }

    lemma OneMoreForSomething(errs: seq<Option<Error>>, err: Option<Error>, t: nat, f: nat, t': nat, f': nat, now: nat, failures: nat)
      requires t <= t' <= now && f <= f' <= failures && NoneForNothing(errs, t, f, t', f')
      requires err.Some? ==> CausedWithin(err.value, t', f', now, failures)
      ensures NoneForNothing(errs + [err], t, f, now, failures)
    {
    }

    /** Every enabled key gets its round, whatever the others end in: `errs` and `rounds` say
        what became of each. */
    method RebroadcastAll(ctx: Context, blockNum: int)
      returns (errors: seq<Error>, ghost errs: seq<Option<Error>>, ghost rounds: seq<KeyRound>)
      requires Valid()
      modifies this`ticks, store
      ensures store.After(old(store.trace), old(store.clock), old(store.failures)) && old(ticks) <= ticks
      ensures |errs| == |rounds| == |enabledAddresses| && errors == ErrorsOf(errs)
      ensures !Cancelled(ctx) ==> KeysDone(store.db, errs) && InTurn(old(store.db), errs, rounds, store.db, Some(blockNum))
      ensures AllCaused(errs, rounds, old(ticks), old(store.failures), ticks, store.failures)
      ensures old(Cancelled(ctx)) ==> ticks == old(ticks)
    {
      errors, errs, rounds := [], [], [];
      for i := 0 to |enabledAddresses|
        invariant store.After(old(store.trace), old(store.clock), old(store.failures)) && old(ticks) <= ticks
        invariant |errs| == |rounds| == i && errors == ErrorsOf(errs)
        invariant !Cancelled(ctx) ==> KeysDone(store.db, errs) && InTurn(old(store.db), errs, rounds, store.db, Some(blockNum))
        invariant AllCaused(errs, rounds, old(ticks), old(store.failures), ticks, store.failures)
        invariant old(Cancelled(ctx)) ==> ticks == old(ticks)
      {
        ghost var before, t, n, f := store.db, store.trace, ticks, store.failures;
        var err, r := RebroadcastWhereNecessary(ctx, enabledAddresses[i], blockNum);
        ContinuedTransitive(old(store.trace), t, store.trace);
        ErrorsOfOneMore(errs, err);
        errors := if err.Some? then errors + [err.value] else errors;
        if !Cancelled(ctx) {
          OneMoreKey(before, store.db, errs, err);
          OneMoreInTurn(old(store.db), errs, rounds, err, r, Some(blockNum));
        }
        OneMoreCaused(errs, rounds, err, r, old(ticks), old(store.failures), n, f, ticks, store.failures);
        errs, rounds := errs + [err], rounds + [r];
      }
    }

    /** The leftovers of every enabled key, in the same way. */
    method HandleAllInProgressAttempts(ctx: Context)
      returns (errors: seq<Error>, ghost errs: seq<Option<Error>>, ghost rounds: seq<KeyRound>)
      requires Valid()
      modifies this`ticks, store
      ensures store.After(old(store.trace), old(store.clock), old(store.failures)) && old(ticks) <= ticks
      ensures |errs| == |rounds| == |enabledAddresses| && errors == ErrorsOf(errs)
      ensures !Cancelled(ctx) ==> KeysDone(store.db, errs) && InTurn(old(store.db), errs, rounds, store.db, None)
      ensures NoneForNothing(errs, old(ticks), old(store.failures), ticks, store.failures)
      ensures old(Cancelled(ctx)) ==> ticks == old(ticks)
    {
      errors, errs, rounds := [], [], [];
      for i := 0 to |enabledAddresses|
        invariant store.After(old(store.trace), old(store.clock), old(store.failures)) && old(ticks) <= ticks
        invariant |errs| == |rounds| == i && errors == ErrorsOf(errs)
        invariant !Cancelled(ctx) ==> KeysDone(store.db, errs) && InTurn(old(store.db), errs, rounds, store.db, None)
        invariant NoneForNothing(errs, old(ticks), old(store.failures), ticks, store.failures)
        invariant old(Cancelled(ctx)) ==> ticks == old(ticks)
      {
        ghost var before, t, n, f := store.db, store.trace, ticks, store.failures;
        var err, seen := HandleAnyInProgressAttempts(ctx, enabledAddresses[i]);
        ghost var r := KeyRound(before, seen, store.db, Queries([], [], store.db), store.db, [], store.db);
        ContinuedTransitive(old(store.trace), t, store.trace);
        ErrorsOfOneMore(errs, err);
        errors := if err.Some? then errors + [err.value] else errors;
        if !Cancelled(ctx) {
          OneMoreKey(before, store.db, errs, err);
          OneMoreInTurn(old(store.db), errs, rounds, err, r, None);
        }
        OneMoreForSomething(errs, err, old(ticks), old(store.failures), n, f, ticks, store.failures);
        errs, rounds := errs + [err], rounds + [r];
      }
    }

    /** What the goroutine of one key knows and relies on, in either loop, survives the calls
        that the goroutines of other keys make meanwhile: they might as well run in turn. */
    lemma OtherKeysCallIsHarmless(c: OwnCall, d: Db, key: Addr, attempts: seq<Attempt>, etxs: seq<Loaded>, i: nat)
      requires OwnGuard(c, d) && WritesOneRow(c) && d.txs[c.id].from != key
      ensures ToSend(d, attempts, i, key) ==> ToSend(OwnEffect(c, d), attempts, i, key)
      ensures Due(d, etxs, i, key) ==> Due(OwnEffect(c, d), etxs, i, key)
      ensures NoLeftovers(d, key) ==> NoLeftovers(OwnEffect(c, d), key)
    {
      var d' := OwnEffect(c, d);
      assert forall id :: id != c.id ==> (id in d'.txs <==> id in d.txs) && (id in d.txs ==> d'.txs[id] == d.txs[id]);
      assert d'.txs[c.id].from != key && d'.lastTxId == d.lastTxId;
      assert forall id, a :: Leftover(d', key, id, a) <==> Leftover(d, key, id, a);
    }

    lemma OtherKeysStayClean(d: Db, d': Db, key: Addr)
      requires KeyFramed(d, d', key)
      ensures forall other :: other != key && NoLeftovers(d, other) ==> NoLeftovers(d', other)
    {
    }

    // ------------------------------------------------------------------ re-orgs

    /** Marks the transactions whose block fell off the chain. `seen` is the database
        when the confirmed transactions were looked up: without an error, exactly
        those of its rows that were re-orged are marked, each with its dearest
        attempt, and no other row was written. While the store does not fail, that
        is the outcome exactly when the store refuses none of them. */
    method MarkReorged(chain: seq<Block>) returns (err: Option<Error>, ghost seen: Db)
      requires Valid() && |chain| > 0
      modifies store
      ensures store.After(old(store.trace), old(store.clock), old(store.failures))
      ensures Framed(old(store.db), seen, {})
      ensures err.None? ==> AllMarkedIfReorged(seen, store.db, chain) && !SomeRefused(seen, chain)
      ensures err.Some? ==> SomeMarked(seen, store.db, chain) && GaveUp(err.value, seen, chain, old(store.failures), store.failures)
    {
      var e, etxs := store.FindTransactionsConfirmedInBlockRange(chain[0].number, chain[|chain| - 1].number);
      seen := store.db;
      if e.Some? {
        return Some(Store(e.value)), seen;
      }
      AllLoaded(seen, etxs, chain);
      ghost var t, f := store.trace, store.failures;
      err := CheckEachListed(seen, etxs, chain);
      ContinuedTransitive(old(store.trace), t, store.trace);
      if err.None? {
        AllMarked(seen, store.db, etxs, chain);
      } else {
        GaveUpSince(err.value, seen, chain, f, store.failures, old(store.failures));
      }
    }

    method CheckEachListed(ghost seen: Db, etxs: seq<Loaded>, chain: seq<Block>) returns (err: Option<Error>)
      requires Valid() && |chain| > 0 && ListedIn(seen, etxs, chain) && seen == store.db
      modifies store
      ensures store.After(old(store.trace), old(store.clock), old(store.failures))
      ensures err.None? ==> MarkedUpTo(seen, store.db, etxs, |etxs|, chain)
      ensures err.Some? ==> SomeMarked(seen, store.db, chain) && GaveUp(err.value, seen, chain, old(store.failures), store.failures)
    {
      NoneMarkedYet(seen, etxs, chain);
      for i := 0 to |etxs|
        invariant store.After(old(store.trace), old(store.clock), old(store.failures))
        invariant MarkedUpTo(seen, store.db, etxs, i, chain)
      {
        err := CheckListed(seen, etxs, i, chain, old(store.trace), old(store.clock), old(store.failures));
        if err.Some? {
          return;
        }
      }
      err := None;
    }

    /** A row of the range as it was loaded; its loaded receipts and its first attempt decide. */
    ghost predicate Listed(seen: Db, e: Loaded, chain: seq<Block>)
      requires |chain| > 0
    {
      && FreshIn(seen, e) && e.tx.id in seen.txs && e.tx == seen.txs[e.tx.id]
      && e.attempts != [] && IsDearest(e.tx, e.attempts[0].id) && (Unmarkable(e.tx) <==> RefusedAsLoaded(e))
      && (Reorged(e.tx, chain) <==> !ReceiptOnChain(e.attempts, chain))
    }

    /** What the query for confirmed transactions returned. */
    ghost predicate ListedIn(seen: Db, etxs: seq<Loaded>, chain: seq<Block>)
      requires |chain| > 0
    {
      DistinctIds(etxs) && forall k :: 0 <= k < |etxs| ==> Listed(seen, etxs[k], chain)
    }

    /** One round of the loop over the confirmed transactions, which began at this trace. */
    method CheckListed(ghost seen: Db, etxs: seq<Loaded>, i: nat, chain: seq<Block>,
                       ghost trace: ConfirmerTrace, ghost clock: nat, ghost failures: nat) returns (err: Option<Error>)
      requires Valid() && store.After(trace, clock, failures)
      requires |chain| > 0 && DistinctIds(etxs) && i < |etxs| && Listed(seen, etxs[i], chain) && MarkedUpTo(seen, store.db, etxs, i, chain)
      modifies store
      ensures store.After(trace, clock, failures)
      ensures err.None? ==> MarkedUpTo(seen, store.db, etxs, i + 1, chain)
      ensures err.Some? ==> SomeMarked(seen, store.db, chain) && GaveUp(err.value, seen, chain, failures, store.failures)
    {
      ghost var before, t := store.db, store.trace;
      StillFresh(seen, before, etxs, i, chain);
      assert Listed(seen, etxs[i], chain);
      err := CheckForReorg(etxs[i], chain);
      ContinuedTransitive(trace, t, store.trace);
      if err.Some? {
        UpToIsSome(seen, before, store.db, etxs, i, chain);
        return;
      }
      Checked(seen, before, store.db, etxs[i], chain);
      OneMoreMarked(seen, before, store.db, etxs, i, chain);
    }

    /** Why the phase gives up: a call of the store failed, or the store refused a
        re-orged transaction. */
    ghost predicate GaveUp(err: Error, seen: Db, chain: seq<Block>, f: nat, failures: nat)
      requires |chain| > 0
    {
      || (err == Store(StoreFailed) && f < failures)
      || (err == Store(Violation) && SomeRefused(seen, chain))
    }

    lemma GaveUpSince(err: Error, seen: Db, chain: seq<Block>, f: nat, failures: nat, earlier: nat)
      requires |chain| > 0 && earlier <= f && GaveUp(err, seen, chain, f, failures)
      ensures GaveUp(err, seen, chain, earlier, failures)
    {
    }

    lemma LoadedReorg(seen: Db, e: Loaded, chain: seq<Block>)
      requires |chain| > 0 && StateOk(seen) && FreshIn(seen, e) && e.tx.id in seen.txs && e.tx == seen.txs[e.tx.id]
      requires e.tx.id in ConfirmedInRangeIds(seen, chain[|chain| - 1].number, chain[0].number)
      ensures Listed(seen, e, chain)
    {
    }

    lemma AllLoaded(seen: Db, etxs: seq<Loaded>, chain: seq<Block>)
      requires |chain| > 0 && StateOk(seen) && DistinctIds(etxs)
      requires forall k :: 0 <= k < |etxs| ==> FreshIn(seen, etxs[k]) && etxs[k].tx.id in seen.txs && etxs[k].tx == seen.txs[etxs[k].tx.id]
      requires forall id :: id in ConfirmedInRangeIds(seen, chain[|chain| - 1].number, chain[0].number) <==> HasId(etxs, id)
      ensures ListedIn(seen, etxs, chain)
    {
      forall k | 0 <= k < |etxs|
        ensures Listed(seen, etxs[k], chain)
      {
        assert HasId(etxs, etxs[k].tx.id);
        LoadedReorg(seen, etxs[k], chain);
      }
    }

    lemma StillFresh(seen: Db, d: Db, etxs: seq<Loaded>, i: nat, chain: seq<Block>)
      requires |chain| > 0 && i < |etxs| && DistinctIds(etxs) && MarkedUpTo(seen, d, etxs, i, chain) && FreshIn(seen, etxs[i])
      ensures FreshIn(d, etxs[i])
      ensures etxs[i].tx.id in d.txs ==> etxs[i].tx.id in seen.txs && SameForUs(seen.txs[etxs[i].tx.id], d.txs[etxs[i].tx.id])
    {
    }

    /** One transaction: left alone if one of its receipts is on the chain, and
        marked with its first attempt otherwise. */
    method CheckForReorg(e: Loaded, chain: seq<Block>) returns (err: Option<Error>)
      requires Valid() && store.Fresh(e) && |chain| > 0
      modifies store
      ensures store.After(old(store.trace), old(store.clock), old(store.failures))
      ensures Framed(old(store.db), store.db, {e.tx.id})
      ensures err.None? ==> CheckedRow(old(store.db), store.db, e, chain)
      ensures ReceiptOnChain(e.attempts, chain) ==> err.None?
      ensures !ReceiptOnChain(e.attempts, chain) ==> MarkingFails(err, e, old(store.failures))
      ensures err.Some? ==> Framed(old(store.db), store.db, {})
    {
      var found := HasReceiptInLongestChain(e.attempts, chain);
      if found {
        RelyIsFramed(store.db, store.db);
        return None;
      }
      err := MarkForRebroadcast(e);
    }

    ghost predicate CheckedRow(d: Db, d': Db, e: Loaded, chain: seq<Block>) {
      && (!ReceiptOnChain(e.attempts, chain) ==> e.attempts != [])
      && (e.tx.id in d'.txs && Care(d, e.tx.id) ==>
            && e.tx.id in d.txs
            && if ReceiptOnChain(e.attempts, chain) then SameForUs(d.txs[e.tx.id], d'.txs[e.tx.id])
               else ToBeResent(d.txs[e.tx.id], d'.txs[e.tx.id], e.attempts[0].id))
    }

    lemma Checked(seen: Db, d: Db, d': Db, e: Loaded, chain: seq<Block>)
      requires |chain| > 0 && Listed(seen, e, chain) && Care(d, e.tx.id) && CheckedRow(d, d', e, chain)
      requires e.tx.id in d.txs ==> SameForUs(seen.txs[e.tx.id], d.txs[e.tx.id])
      ensures e.tx.id in d'.txs && e.tx.id in d.txs ==> MarkedIfReorged(seen.txs[e.tx.id], d'.txs[e.tx.id], chain)
    {
    }

    /** When a transaction that has to be marked is not. */
    ghost predicate MarkingFails(err: Option<Error>, e: Loaded, f: nat)
      reads store
    {
      && (err == Some(InvariantViolation) <==> e.attempts == [])
      && (err == Some(Store(Violation)) <==> e.attempts != [] && RefusedAsLoaded(e))
      && (err.Some? && err != Some(InvariantViolation) && err != Some(Store(Violation)) ==>
            err == Some(Store(StoreFailed)) && f < store.failures)
    }

    method MarkForRebroadcast(e: Loaded) returns (err: Option<Error>)
      requires Valid() && store.Fresh(e)
      modifies store
      ensures store.After(old(store.trace), old(store.clock), old(store.failures))
      ensures Framed(old(store.db), store.db, {e.tx.id})
      ensures MarkingFails(err, e, old(store.failures))
      ensures err.Some? ==> Framed(old(store.db), store.db, {})
      ensures err.None? && e.tx.id in store.db.txs ==>
        && e.tx.id in old(store.db).txs
        && ToBeResent(old(store.db).txs[e.tx.id], store.db.txs[e.tx.id], e.attempts[0].id)
    {
      if |e.attempts| == 0 {
        RelyIsFramed(store.db, store.db);
        return Some(InvariantViolation);
      }
      var failed := store.UpdateTxForRebroadcast(e);
      err := if failed.Some? then Some(Store(failed.value)) else None;
    }

    /** `chain` is the new head with its linked parents, newest first. */
    method EnsureConfirmedTransactionsInLongestChain(ctx: Context, chain: seq<Block>)
      returns (errors: seq<Error>, ghost m: Marking)
      requires Valid() && |chain| > 0
      modifies this`ticks, this`nConsecutiveBlocksChainTooShort, store
      ensures store.After(old(store.trace), old(store.clock), old(store.failures)) && old(ticks) <= ticks
      ensures nConsecutiveBlocksChainTooShort == if |chain| < cfg.finalityDepth then old(nConsecutiveBlocksChainTooShort) + 1 else 0
      ensures Marked(m, chain, old(store.db), old(store.failures), store.failures)
      ensures if m.err.Some? then errors == [m.err.value] && m.marked == store.db else errors == ErrorsOf(m.errs)
      ensures m.err.None? && !Cancelled(ctx) ==> LeftoversSent(m, store.db)
      ensures m.err.None? ==> forall e :: e in errors ==> Caused(e, old(ticks), old(store.failures))
      ensures old(Cancelled(ctx)) ==> ticks == old(ticks)
    {
      if |chain| < cfg.finalityDepth {
        nConsecutiveBlocksChainTooShort := nConsecutiveBlocksChainTooShort + 1;
      } else {
        nConsecutiveBlocksChainTooShort := 0;
      }
      var err;
      ghost var seen;
      err, seen := MarkReorged(chain);
      m := Marking(err, seen, store.db, [], []);
      if err.Some? {
        return [err.value], m;
      }
      ghost var t, n, f := store.trace, ticks, store.failures;
      ghost var errs, rounds;
      errors, errs, rounds := HandleAllInProgressAttempts(ctx);
      m := m.(errs := errs, rounds := rounds);
      ErrorsAreCaused(errs, n, f, old(ticks), old(store.failures));
      ContinuedTransitive(old(store.trace), t, store.trace);
    }

    /** The leftovers of every enabled key were sent after the marking, key by key. */
    ghost predicate LeftoversSent(m: Marking, d: Db) {
      |m.errs| == |m.rounds| == |enabledAddresses| && KeysDone(d, m.errs) && InTurn(m.marked, m.errs, m.rounds, d, None)
    }

    lemma ErrorsAreCaused(errs: seq<Option<Error>>, t: nat, f: nat, t': nat, f': nat)
      requires NoneForNothing(errs, t, f, ticks, store.failures) && t' <= t && f' <= f
      ensures forall e :: e in ErrorsOf(errs) ==> Caused(e, t', f')
    {
    }

    /** Either all re-orged transactions were marked, and the store refuses none of them,
        or the marking gave up half-way. */
    ghost predicate Marked(m: Marking, chain: seq<Block>, d: Db, f: nat, failures: nat)
      requires |chain| > 0
    {
      && Framed(d, m.seen, {})
      && (m.err.None? ==> AllMarkedIfReorged(m.seen, m.marked, chain) && !SomeRefused(m.seen, chain))
      && (m.err.Some? ==> SomeMarked(m.seen, m.marked, chain) && GaveUp(m.err.value, m.seen, chain, f, failures))
    }

    // ---------------------------------------------------------------- receipts

    /** Sends the transactions without a receipt again. Only an error that says the node
        already has the transaction leaves it as it is; the others for which the client
        returned an entry go back to unconfirmed. */
    method CheckConfirmedMissingReceipt() returns (err: Option<Error>, ghost missing: Db, ghost attempts: seq<Attempt>, ghost seen: Db)
      requires Valid()
      modifies this`ticks, store
      ensures store.After(old(store.trace), old(store.clock), old(store.failures)) && old(ticks) <= ticks
      ensures err.None? ==>
        && Framed(old(store.db), missing, {}) && AreMissing(missing, attempts) && Framed(missing, seen, {})
        && if attempts == [] then seen == store.db else SentAgain(seen, store.db, attempts, world.batchSend(old(ticks)))
      ensures err.Some? ==> Framed(old(store.db), store.db, {})
      ensures err.Some? ==> Caused(err.value, old(ticks), old(store.failures))
    {
      ghost var start := store.db;
      var e, found := store.FindTxAttemptsConfirmedMissingReceipt();
      missing, attempts, seen := store.db, found, store.db;
      if e.Some? {
        return Some(Store(e.value)), missing, attempts, seen;
      }
      if |found| == 0 {
        RelyIsFramed(missing, missing);
        return None, missing, attempts, seen;
      }
      var n := Ask();
      var ids := ToUnconfirm(found, world.batchSend(n));
      MissingIsInCare(missing, found);
      ghost var t := store.trace;
      var e', seen' := store.UpdateTxsUnconfirmed(ids);
      ContinuedTransitive(old(store.trace), t, store.trace);
      seen := seen';
      if e'.Some? {
        FramedTransitive(start, missing, seen, {});
        return Some(Store(e'.value)), missing, attempts, seen;
      }
      UnconfirmedByIndex(seen, attempts, ids, world.batchSend(n));
      err := None;
    }

    lemma MissingIsInCare(d: Db, attempts: seq<Attempt>)
      requires Inv(d) && AreMissing(d, attempts)
      ensures forall k :: 0 <= k < |attempts| ==> Care(d, attempts[k].txId)
    {
    }

    /** Of the transactions that were sent again, those that GoesBack picks are
        unconfirmed; nothing else was written. */
    ghost predicate SentAgain(seen: Db, d: Db, attempts: seq<Attempt>, reply: BatchReply) {
      && d.txs.Keys == seen.txs.Keys
      && (forall k :: 0 <= k < |attempts| && attempts[k].txId in seen.txs ==>
            d.txs[attempts[k].txId] == seen.txs[attempts[k].txId].(
              state := if GoesBack(reply, k) then Unconfirmed else seen.txs[attempts[k].txId].state))
      && forall id :: id in seen.txs && (forall k :: 0 <= k < |attempts| ==> attempts[k].txId != id) ==> d.txs[id] == seen.txs[id]
    }

    predicate GoesBack(reply: BatchReply, k: nat) {
      k < reply.reported && !(reply.errors(k) && reply.codes(k).TransactionAlreadyKnown?)
    }

    /** A batch that failed as a whole comes back with an entry for every transaction and
        no errors: all of them go back, although the node answered nothing. */
    lemma FailedBatchSendsAllBack(seen: Db, d: Db, attempts: seq<Attempt>, reply: BatchReply)
      requires SentAgain(seen, d, attempts, reply)
      requires reply.reported == |attempts| && forall k :: 0 <= k < |attempts| ==> !reply.errors(k)
      ensures forall k :: 0 <= k < |attempts| && attempts[k].txId in seen.txs ==> d.txs[attempts[k].txId].state.Unconfirmed?
    {
    }

    method ToUnconfirm(attempts: seq<Attempt>, reply: BatchReply) returns (ids: set<int>)
      requires forall j, k :: 0 <= j < k < |attempts| ==> attempts[j].txId != attempts[k].txId
      ensures forall k :: 0 <= k < |attempts| ==> (attempts[k].txId in ids <==> GoesBack(reply, k))
      ensures forall id :: id in ids ==> exists k :: 0 <= k < |attempts| && attempts[k].txId == id
    {
      ids := {};
      for idx := 0 to |attempts|
        invariant forall k :: 0 <= k < idx ==> (attempts[k].txId in ids <==> GoesBack(reply, k))
        invariant forall id :: id in ids ==> exists k :: 0 <= k < idx && attempts[k].txId == id
      {
        if idx < reply.reported {
          if reply.errors(idx) && reply.codes(idx).TransactionAlreadyKnown? {
            continue;
          }
          ids := ids + {attempts[idx].txId};
        }
      }
    }

    lemma UnconfirmedByIndex(seen: Db, attempts: seq<Attempt>, ids: set<int>, reply: BatchReply)
      requires Inv(seen)
      requires forall k :: 0 <= k < |attempts| ==> (attempts[k].txId in ids <==> GoesBack(reply, k))
      requires forall id :: id in ids ==> exists k :: 0 <= k < |attempts| && attempts[k].txId == id
      ensures SentAgain(seen, seen.(txs := map id | id in seen.txs :: UnconfirmedRow(seen.txs[id], ids)), attempts, reply)
    {
    }

    /** Asks for the receipts of one batch, the n-th question to the node. */
    method BatchFetchReceipts(batch: seq<Pending>) returns (err: Option<Error>, receipts: seq<Receipt>)
      modifies this`ticks
      ensures ticks == old(ticks) + 1
      ensures err == if world.fetchFails(old(ticks)) then Some(FetchFailed) else None
      ensures err.None? ==> receipts == Kept(batch, Answers(batch, old(ticks)), |batch|)
      ensures err.Some? ==> receipts == []
    {
      var n := Ask();
      receipts := [];
      if world.fetchFails(n) {
        return Some(FetchFailed), receipts;
      }
      receipts := KeepReceipts(batch, Answers(batch, n));
      err := None;
    }

    /** What the node answers when the n-th question is about this batch. */
    function Answers(batch: seq<Pending>, n: nat): (replies: seq<ReceiptReply>)
      ensures |replies| == |batch| && forall i :: 0 <= i < |batch| ==> replies[i] == world.receipts(n, i)
    {
      seq(|batch|, i requires 0 <= i => world.receipts(n, i))
    }

    /** The answer about attempt number n, when batches of this size are asked about from the
        t-th question on. */
    function AnswerTo(n: nat, size: nat, t: nat): ReceiptReply
      requires size > 0
    {
      world.receipts(t + n / size, n % size)
    }

    ghost function AnswersTo(attempts: seq<Pending>, size: nat, t: nat): (replies: seq<ReceiptReply>)
      requires attempts != [] ==> size > 0
      ensures |replies| == |attempts|
    {
      seq(|attempts|, k requires 0 <= k < |attempts| => AnswerTo(k, size, t))
    }

    function BatchSize(attempts: seq<Pending>): (size: nat)
      ensures attempts != [] ==> size > 0
    {
      if cfg.batchSize == 0 then |attempts| else cfg.batchSize
    }

    /** Fetches batch by batch and saves what each batch brought. */
    method FetchAndSaveReceipts(attempts: seq<Pending>) returns (err: Option<Error>, ghost saved: seq<Receipt>)
      requires Valid()
      modifies this`ticks, store
      ensures store.After(old(store.trace), old(store.clock), old(store.failures)) && old(ticks) <= ticks
      ensures var all := Kept(attempts, AnswersTo(attempts, BatchSize(attempts), old(ticks)), |attempts|);
        saved <= all && (err.None? ==> saved == all)
      ensures ReceiptsSaved(old(store.db), store.db, saved)
      ensures err.Some? ==> Caused(err.value, old(ticks), old(store.failures))
    {
      ghost var start, replies := store.db, AnswersTo(attempts, BatchSize(attempts), ticks);
      saved := [];
      var batchSize := BatchSize(attempts);
      var i := 0;
      FramedSavesNothing(start, start) by { RelyIsFramed(start, start); }
      while i < |attempts|
        invariant store.After(old(store.trace), old(store.clock), old(store.failures)) && old(ticks) <= ticks
        invariant batchSize > 0 ==> i % batchSize == 0 && ticks == old(ticks) + i / batchSize
        invariant FetchedUpTo(attempts, replies, i, saved) && ReceiptsSaved(start, store.db, saved)
        decreases |attempts| - i
      {
        var j := i + batchSize;
        if j > |attempts| {
          j := |attempts|;
        }
        BatchIsAnswered(attempts, batchSize, old(ticks), i, j, ticks);
        NextBatchStart(i, batchSize);
        ghost var t := store.trace;
        err, saved := FetchNextBatch(attempts, i, j, replies, saved, start);
        ContinuedTransitive(old(store.trace), t, store.trace);
        if err.Some? {
          KeptGrows(attempts, replies, i, |attempts|);
          return;
        }
        i := i + batchSize;
      }
      err := None;
    }

    /** The loop of FetchAndSaveReceipts before the batch from i on. */
    ghost predicate FetchedUpTo(attempts: seq<Pending>, replies: seq<ReceiptReply>, i: nat, saved: seq<Receipt>) {
      |replies| == |attempts| && saved == Kept(attempts, replies, if i < |attempts| then i else |attempts|)
    }

    /** One round of the loop: the batch from i to j. */
    method FetchNextBatch(attempts: seq<Pending>, i: nat, j: nat,
                          ghost replies: seq<ReceiptReply>, ghost saved: seq<Receipt>, ghost start: Db)
      returns (err: Option<Error>, ghost all: seq<Receipt>)
      requires Valid() && i <= j <= |attempts| && LiesAt(attempts, replies, i, attempts[i..j], Answers(attempts[i..j], ticks))
      requires FetchedUpTo(attempts, replies, i, saved) && ReceiptsSaved(start, store.db, saved)
      modifies this`ticks, store
      ensures store.After(old(store.trace), old(store.clock), old(store.failures))
      ensures ticks == old(ticks) + 1
      ensures if err.None? then FetchedUpTo(attempts, replies, j, all) else all == saved
      ensures ReceiptsSaved(start, store.db, all)
      ensures err.Some? ==> Caused(err.value, old(ticks), old(store.failures))
    {
      ghost var before, receipts := store.db, [];
      FetchedOneMore(attempts, replies, i, j, attempts[i..j], Answers(attempts[i..j], ticks), saved);
      err, receipts := FetchAndSaveBatch(attempts[i..j]);
      ReceiptsSavedTwice(start, before, store.db, saved, receipts);
      all := saved + receipts;
    }

    lemma FetchedOneMore(attempts: seq<Pending>, replies: seq<ReceiptReply>, i: nat, j: nat,
                         batch: seq<Pending>, answers: seq<ReceiptReply>, saved: seq<Receipt>)
      requires i <= j <= |attempts| && |batch| == j - i && LiesAt(attempts, replies, i, batch, answers)
      requires FetchedUpTo(attempts, replies, i, saved)
      ensures FetchedUpTo(attempts, replies, j, saved + Kept(batch, answers, |batch|))
    {
      KeptOfBatch(attempts, replies, i, batch, answers, |batch|);
    }

    lemma BatchIsAnswered(attempts: seq<Pending>, size: nat, t: nat, i: nat, j: nat, now: nat)
      requires size > 0 && i % size == 0 && i <= j <= |attempts| && j <= i + size && now == t + i / size
      ensures LiesAt(attempts, AnswersTo(attempts, size, t), i, attempts[i..j], Answers(attempts[i..j], now))
    {
      forall n | 0 <= n < |attempts[i..j]|
        ensures Answers(attempts[i..j], now)[n] == AnswersTo(attempts, size, t)[i + n]
      {
        PlaceInBatch(i, i + n, size);
      }
    }

    method FetchAndSaveBatch(batch: seq<Pending>) returns (err: Option<Error>, ghost saved: seq<Receipt>)
      requires Valid()
      modifies this`ticks, store
      ensures store.After(old(store.trace), old(store.clock), old(store.failures))
      ensures ticks == old(ticks) + 1
      ensures err.None? ==> saved == Kept(batch, Answers(batch, old(ticks)), |batch|)
      ensures err.Some? ==> saved == []
      ensures ReceiptsSaved(old(store.db), store.db, saved)
      ensures err.Some? ==> Caused(err.value, old(ticks), old(store.failures))
    {
      ghost var start := store.db;
      saved := [];
      var e, receipts := BatchFetchReceipts(batch);
      if e.Some? {
        FramedSavesNothing(start, start) by { RelyIsFramed(start, start); }
        assert Causes(old(ticks), FetchFailed);
        return e, saved;
      }
      err := SaveReceipts(receipts);
      if err.None? {
        saved := receipts;
      }
    }

    method SaveReceipts(receipts: seq<Receipt>) returns (err: Option<Error>)
      requires Valid()
      modifies store
      ensures store.After(old(store.trace), old(store.clock), old(store.failures))
      ensures ReceiptsSaved(old(store.db), store.db, if err.None? then receipts else [])
      ensures err.Some? ==> err.value.Store? && old(store.failures) < store.failures
    {
      ghost var start := store.db;
      var e, seen := store.SaveFetchedReceipts(receipts);
      FramedSavesNothing(start, seen);
      ReceivedIsSaved(start, seen, receipts);
      err := if e.Some? then Some(Store(e.value)) else None;
      if receipts == [] {
        FramedSavesNothing(start, start) by { RelyIsFramed(start, start); }
      }
    }

    /** The node was asked about this attempt, and if its answer passed the checks the receipt
        is among these. */
    ghost predicate AnswerIsSaved(p: Pending, saved: seq<Receipt>) { exists n, i :: AnswerSavedAt(p, n, i, saved) }

    ghost predicate AnswerSavedAt(p: Pending, n: nat, i: nat, saved: seq<Receipt>) {
      forall r :: IsKept(p.attempt, world.receipts(n, i), r) ==> r in saved
    }

    lemma AllAnswersAreKept(asked: seq<Pending>, t: nat)
      ensures forall p :: p in asked ==> AnswerIsSaved(p, Kept(asked, AnswersTo(asked, BatchSize(asked), t), |asked|))
    {
      var replies := AnswersTo(asked, BatchSize(asked), t);
      forall p | p in asked
        ensures AnswerIsSaved(p, Kept(asked, replies, |asked|))
      {
        var k :| 0 <= k < |asked| && asked[k] == p;
        AnswerIsGiven(k, BatchSize(asked), t, replies[k]);
        KeptAnswerIsSaved(asked, replies, k);
      }
    }

    lemma AnswerIsGiven(k: nat, size: nat, t: nat, reply: ReceiptReply)
      requires size > 0 && reply == AnswerTo(k, size, t)
      ensures IsAnswer(reply)
    {
    }

    lemma KeptAnswerIsSaved(asked: seq<Pending>, replies: seq<ReceiptReply>, k: nat)
      requires k < |asked| == |replies| && IsAnswer(replies[k])
      ensures AnswerIsSaved(asked[k], Kept(asked, replies, |asked|))
    {
      var n: nat, i: nat :| replies[k] == world.receipts(n, i);
      forall r | IsKept(asked[k].attempt, world.receipts(n, i), r)
        ensures r in Kept(asked, replies, |asked|)
      {
        AnswerIsKept(asked, replies, |asked|, k, r);
      }
      assert AnswerSavedAt(asked[k], n, i, Kept(asked, replies, |asked|));
    }

    lemma StaysSaved(asked: seq<Pending>, saved: seq<Receipt>, more: seq<Receipt>)
      requires forall p :: p in asked ==> AnswerIsSaved(p, saved)
      ensures forall p :: p in asked ==> AnswerIsSaved(p, saved + more) && AnswerIsSaved(p, more + saved)
    {
      forall p | p in asked
        ensures AnswerIsSaved(p, saved + more) && AnswerIsSaved(p, more + saved)
      {
        var n: nat, i: nat :| AnswerSavedAt(p, n, i, saved);
        assert AnswerSavedAt(p, n, i, saved + more) && AnswerSavedAt(p, n, i, more + saved);
      }
    }

    /** Some question about an attempt that was asked had this answer, and it was kept. */
    ghost predicate FromAnswer(asked: seq<Pending>, r: Receipt) {
      exists k, n, i :: 0 <= k < |asked| && IsKept(asked[k].attempt, world.receipts(n, i), r)
    }

    ghost predicate IsAnswer(reply: ReceiptReply) { exists n: nat, place: nat :: reply == world.receipts(n, place) }

    lemma AllKeptAreAnswers(asked: seq<Pending>, t: nat)
      ensures forall r :: r in Kept(asked, AnswersTo(asked, BatchSize(asked), t), |asked|) ==> FromAnswer(asked, r)
    {
      var replies := AnswersTo(asked, BatchSize(asked), t);
      forall k | 0 <= k < |asked|
        ensures IsAnswer(replies[k])
      {
        assert replies[k] == AnswerTo(k, BatchSize(asked), t);
      }
      forall r | r in Kept(asked, replies, |asked|)
        ensures FromAnswer(asked, r)
      {
        KeptIsFromAnswer(asked, replies, r);
      }
    }

    lemma KeptIsFromAnswer(asked: seq<Pending>, replies: seq<ReceiptReply>, r: Receipt)
      requires |replies| == |asked| && r in Kept(asked, replies, |asked|)
      requires forall k :: 0 <= k < |asked| ==> IsAnswer(replies[k])
      ensures FromAnswer(asked, r)
    {
      KeptIsAnswer(asked, replies, |asked|, r);
      var k :| 0 <= k < |asked| && IsKept(asked[k].attempt, replies[k], r);
      assert IsAnswer(replies[k]);
      var n: nat, place: nat :| replies[k] == world.receipts(n, place);
      assert IsKept(asked[k].attempt, world.receipts(n, place), r);
    }

    lemma FromAnswerGrows(asked: seq<Pending>, more: seq<Pending>, r: Receipt)
      requires FromAnswer(asked, r) || FromAnswer(more, r)
      ensures FromAnswer(asked + more, r)
    {
      if FromAnswer(asked, r) {
        var k, n, i :| 0 <= k < |asked| && IsKept(asked[k].attempt, world.receipts(n, i), r);
        assert (asked + more)[k] == asked[k];
      } else {
        var k, n, i :| 0 <= k < |more| && IsKept(more[k].attempt, world.receipts(n, i), r);
        assert (asked + more)[|asked| + k] == more[k];
      }
    }

    /** One key: which of its attempts may have been mined, and their receipts. */
    method FetchForAddress(attempts: seq<Pending>) returns (err: Option<Error>, mined: int, likely: seq<Pending>, ghost saved: seq<Receipt>)
      requires Valid() && BySequence(attempts)
      modifies this`ticks, store
      ensures store.After(old(store.trace), old(store.clock), old(store.failures)) && old(ticks) <= ticks
      ensures err.None? ==> world.minedSequence(old(ticks)) == Some(mined)
      ensures likely <= attempts
      ensures err.None? ==> forall p :: p in attempts ==> (p in likely <==> p.sequence <= mined)
      ensures forall r :: r in saved ==> FromAnswer(likely, r)
      ensures err.None? ==> forall p :: p in likely ==> AnswerIsSaved(p, saved)
      ensures ReceiptsSaved(old(store.db), store.db, saved)
      ensures err.Some? ==> Caused(err.value, old(ticks), old(store.failures))
    {
      ghost var start := store.db;
      mined, likely, saved := 0, [], [];
      FramedSavesNothing(start, start) by { RelyIsFramed(start, start); }
      var n := Ask();
      if world.minedSequence(n).None? {
        assert Causes(n, MinedSequence);
        return Some(MinedSequence), mined, likely, saved;
      }
      mined := world.minedSequence(n).value;
      likely := SeparateLikelyConfirmedAttempts(attempts, mined);
      err := None;
      if |likely| > 0 {
        ghost var t := ticks;
        err, saved := FetchAndSaveReceipts(likely);
        AllKeptAreAnswers(likely, t);
        AllAnswersAreKept(likely, t);
      }
    }

    /** What the fetching part of a round achieved for these keys. */
    ghost predicate FetchedFor(attempts: seq<Pending>, keys: seq<Addr>, d: Db, round: ReceiptRound) {
      && (forall p :: p in attempts && p.from in keys ==>
            p.from in round.mined && (p in round.asked <==> p.sequence <= round.mined[p.from]))
      && (forall p :: p in round.asked ==> p.from in keys)
      && (forall from :: from in round.mined ==> exists n: nat :: world.minedSequence(n) == Some(round.mined[from]))
      && (forall p :: p in round.asked ==> AnswerIsSaved(p, round.saved))
      && SavedSoFar(attempts, d, round)
    }

    /** However far the fetching got, what was saved are kept answers about these attempts. */
    ghost predicate SavedSoFar(attempts: seq<Pending>, d: Db, round: ReceiptRound) {
      && (forall p :: p in round.asked ==> p in attempts)
      && (forall r :: r in round.saved ==> FromAnswer(round.asked, r))
      && ReceiptsSaved(round.seen, d, round.saved)
    }

    lemma SavedOneMore(attempts: seq<Pending>, d: Db, d': Db, round: ReceiptRound,
                       mined: map<Addr, int>, likely: seq<Pending>, saved: seq<Receipt>)
      requires SavedSoFar(attempts, d, round)
      requires forall p :: p in likely ==> p in attempts
      requires forall r :: r in saved ==> FromAnswer(likely, r)
      requires ReceiptsSaved(d, d', saved)
      ensures SavedSoFar(attempts, d', round.(asked := round.asked + likely, mined := mined, saved := round.saved + saved))
    {
      ReceiptsSavedTwice(round.seen, d, d', round.saved, saved);
      forall r | r in round.saved + saved
        ensures FromAnswer(round.asked + likely, r)
      {
        FromAnswerGrows(round.asked, likely, r);
      }
    }

    lemma FetchedForOneMore(attempts: seq<Pending>, keys: seq<Addr>, key: Addr, d: Db, d': Db, round: ReceiptRound,
                            n: nat, mined: int, likely: seq<Pending>, saved: seq<Receipt>)
      requires FetchedFor(attempts, keys, d, round) && key !in keys
      requires world.minedSequence(n) == Some(mined)
      requires forall p :: p in likely ==> p in attempts && p.from == key
      requires forall p :: p in attempts && p.from == key ==> (p in likely <==> p.sequence <= mined)
      requires forall r :: r in saved ==> FromAnswer(likely, r)
      requires forall p :: p in likely ==> AnswerIsSaved(p, saved)
      requires ReceiptsSaved(d, d', saved)
      ensures FetchedFor(attempts, keys + [key], d',
                         round.(asked := round.asked + likely, mined := round.mined[key := mined], saved := round.saved + saved))
    {
      SavedOneMore(attempts, d, d', round, round.mined[key := mined], likely, saved);
      StaysSaved(round.asked, round.saved, saved);
      StaysSaved(likely, saved, round.saved);
    }

    method FetchOneMore(attempts: seq<Pending>, ghost keys: seq<Addr>, key: Addr, ghost round: ReceiptRound)
      returns (err: Option<Error>, ghost round': ReceiptRound)
      requires Valid() && BySequence(attempts) && FetchedFor(attempts, keys, store.db, round) && key !in keys
      modifies this`ticks, store
      ensures store.After(old(store.trace), old(store.clock), old(store.failures)) && old(ticks) <= ticks
      ensures round'.seen == round.seen && SavedSoFar(attempts, store.db, round')
      ensures err.None? ==> FetchedFor(attempts, keys + [key], store.db, round')
      ensures err.Some? ==> Caused(err.value, old(ticks), old(store.failures))
    {
      ghost var before, n := store.db, ticks;
      var mined, likely;
      ghost var saved;
      err, mined, likely, saved := FetchForAddress(OfAddress(attempts, key));
      round' := round.(asked := round.asked + likely, mined := round.mined[key := mined], saved := round.saved + saved);
      assert forall p :: p in likely ==> p in OfAddress(attempts, key);
      SavedOneMore(attempts, before, store.db, round, round.mined[key := mined], likely, saved);
      if err.None? {
        FetchedForOneMore(attempts, keys, key, before, store.db, round, n, mined, likely, saved);
      }
    }

    method FetchForAllAddresses(attempts: seq<Pending>) returns (err: Option<Error>, ghost keys: seq<Addr>, ghost round: ReceiptRound)
      requires Valid() && BySequence(attempts)
      modifies this`ticks, store
      ensures store.After(old(store.trace), old(store.clock), old(store.failures)) && old(ticks) <= ticks
      ensures round.seen == old(store.db)
      ensures forall p :: p in attempts ==> p.from in keys
      ensures SavedSoFar(attempts, store.db, round)
      ensures err.None? ==> FetchedFor(attempts, keys, store.db, round)
      ensures err.Some? ==> Caused(err.value, old(ticks), old(store.failures))
    {
      ghost var start := store.db;
      round := ReceiptRound(start, [], map[], [], start, start);
      FramedSavesNothing(start, start) by { RelyIsFramed(start, start); }
      var addresses := Addresses(attempts);
      keys := addresses;
      for i := 0 to |addresses|
        invariant store.After(old(store.trace), old(store.clock), old(store.failures)) && old(ticks) <= ticks
        invariant round.seen == start
        invariant FetchedFor(attempts, addresses[..i], store.db, round)
      {
        ghost var t := store.trace;
        err, round := FetchOneMore(attempts, addresses[..i], addresses[i], round);
        ContinuedTransitive(old(store.trace), t, store.trace);
        if err.Some? {
          return err, keys, round;
        }
        assert addresses[..i + 1] == addresses[..i] + [addresses[i]];
      }
      assert addresses[..|addresses|] == addresses;
      err := None;
    }

    method Addresses(attempts: seq<Pending>) returns (keys: seq<Addr>)
      ensures forall p :: p in attempts ==> p.from in keys
      ensures forall i, j :: 0 <= i < j < |keys| ==> keys[i] != keys[j]
    {
      var froms := set p | p in attempts :: p.from;
      keys := ListIds(froms);
      forall p | p in attempts
        ensures p.from in keys
      {
        assert p.from in froms;
        var k :| 0 <= k < |keys| && keys[k] == p.from;
      }
    }

    /** Fetches the receipts of what may have been mined, then marks the transactions
        that were overtaken and fails those that expired. */
    method CheckForReceipts(blockNum: int) returns (err: Option<Error>, ghost round: ReceiptRound)
      requires Valid()
      modifies this`ticks, store
      ensures store.After(old(store.trace), old(store.clock), old(store.failures)) && old(ticks) <= ticks
      ensures err.None? ==>
        && Framed(old(store.db), round.seen, {})
        && if forall p :: !IsPending(round.seen.txs, p) then store.db == round.seen else RoundDone(round, store.db, blockNum)
      ensures err.Some? ==> Framed(old(store.db), round.seen, {}) && RoundLeft(round, store.db)
      ensures err.Some? ==> Caused(err.value, old(ticks), old(store.failures))
    {
      ghost var start := store.db;
      var e, attempts := store.FindTxAttemptsRequiringReceiptFetch();
      round := ReceiptRound(store.db, [], map[], [], store.db, store.db);
      RelyIsFramed(store.db, store.db);
      if e.Some? {
        FramedSavesNothing(store.db, store.db);
        return Some(Store(e.value)), round;
      }
      if |attempts| == 0 {
        return None, round;
      }
      ghost var keys;
      ghost var t := store.trace;
      err, keys, round := FetchForAllAddresses(attempts);
      ContinuedTransitive(old(store.trace), t, store.trace);
      round := round.(fetched := store.db);
      if err.Some? {
        RelyIsFramed(store.db, store.db);
        return err, round;
      }
      assert IsPending(round.seen.txs, attempts[0]);
      ghost var t2, n2, f2 := store.trace, ticks, store.failures;
      ghost var marked;
      err, marked := MarkAndFail(blockNum);
      round := round.(marked := marked);
      ContinuedTransitive(old(store.trace), t2, store.trace);
      CausedBefore(err, n2, f2, old(ticks), old(store.failures));
    }

    /** The two updates of the whole table; `marked` is the database between them. */
    method MarkAndFail(blockNum: int) returns (err: Option<Error>, ghost marked: Db)
      requires Valid()
      modifies store
      ensures store.After(old(store.trace), old(store.clock), old(store.failures))
      ensures err.None? ==> MarkedMissing(old(store.db), marked) && ExpiredOnly(marked, store.db, blockNum, cfg.finalityDepth)
      ensures err.Some? ==>
        || Framed(old(store.db), store.db, {})
        || (MarkedMissing(old(store.db), marked) && Framed(marked, store.db, {}))
      ensures err.Some? ==> Caused(err.value, ticks, old(store.failures))
    {
      err := MarkMissingReceipts();
      marked := store.db;
      if err.Some? {
        return;
      }
      ghost var t := store.trace;
      err := FailExpired(blockNum);
      ContinuedTransitive(old(store.trace), t, store.trace);
    }

    /** What a round that ended early left behind: the receipts saved before the error, and
        the marks if it came that far. */
    ghost predicate RoundLeft(round: ReceiptRound, d: Db) {
      && (forall p :: p in round.asked ==> IsPending(round.seen.txs, p))
      && (forall r :: r in round.saved ==> FromAnswer(round.asked, r))
      && ReceiptsSaved(round.seen, round.fetched, round.saved)
      && (Framed(round.fetched, d, {}) || (MarkedMissing(round.fetched, round.marked) && Framed(round.marked, d, {})))
    }

    /** A finished round: the node was asked exactly about the attempts that lie within the
        mined count of their key, what was saved were kept answers about them, and
        the rest of the table changed as the marks say. */
    ghost predicate RoundDone(round: ReceiptRound, d: Db, blockNum: int) {
      && (forall p :: IsPending(round.seen.txs, p) ==>
            p.from in round.mined && (p in round.asked <==> p.sequence <= round.mined[p.from]))
      && (forall p :: p in round.asked ==> IsPending(round.seen.txs, p))
      && (forall from :: from in round.mined ==> exists n: nat :: world.minedSequence(n) == Some(round.mined[from]))
      && (forall r :: r in round.saved ==> FromAnswer(round.asked, r))
      && (forall p :: p in round.asked ==> AnswerIsSaved(p, round.saved))
      && ReceiptsSaved(round.seen, round.fetched, round.saved)
      && MarkedMissing(round.fetched, round.marked)
      && ExpiredOnly(round.marked, d, blockNum, cfg.finalityDepth)
    }

    method MarkMissingReceipts() returns (err: Option<Error>)
      requires Valid()
      modifies store
      ensures store.After(old(store.trace), old(store.clock), old(store.failures))
      ensures if err.None? then MarkedMissing(old(store.db), store.db) else Framed(old(store.db), store.db, {})
      ensures err.Some? ==> err.value.Store? && old(store.failures) < store.failures
    {
      ghost var start := store.db;
      var e, seen := store.MarkAllConfirmedMissingReceipt();
      OvertakenIsMarked(start, seen);
      err := if e.Some? then Some(Store(e.value)) else None;
    }

    method FailExpired(blockNum: int) returns (err: Option<Error>)
      requires Valid()
      modifies store
      ensures store.After(old(store.trace), old(store.clock), old(store.failures))
      ensures if err.None? then ExpiredOnly(old(store.db), store.db, blockNum, cfg.finalityDepth) else Framed(old(store.db), store.db, {})
      ensures err.Some? ==> err.value.Store? && old(store.failures) < store.failures
    {
      ghost var start := store.db;
      var e, seen := store.MarkOldTxesMissingReceiptAsErrored(blockNum, cfg.finalityDepth);
      if blockNum > cfg.finalityDepth {
        ExpiredIsExact(start, seen, blockNum, cfg.finalityDepth);
      }
      err := if e.Some? then Some(Store(e.value)) else None;
    }

    // ------------------------------------------------------------------- heads

    /** One head, under a timeout of its own; the first error keeps the later phases from
        running. The phases that ran did their part, in this order, and the one that ended
        early left what it had written before its error. Unless cancelled every enabled key
        had its round, and none has an attempt left in_progress after the rebroadcasts and
        at the end, if they ended without an error. */
    method ProcessHead(ctx: Context, chain: seq<Block>) returns (errors: seq<Error>, ghost log: HeadLog)
      requires Valid() && |chain| > 0
      modifies this, store
      ensures store.After(old(store.trace), old(store.clock), old(store.failures)) && old(ticks) <= ticks
      ensures HeadServed(HeadRun(old(store.db), store.db, ctx.WithTimeout(world.deadline(old(Moment()))), Moment(), old(ticks), ticks,
                                 old(store.failures), store.failures, errors, log), chain)
      ensures old(Moment()) <= log.moment <= Moment()
      ensures ctx.WithTimeout(world.deadline(old(Moment()))).cancelAt <= log.moment ==> ticks == log.asked
    {
      var headCtx := ctx.WithTimeout(world.deadline(Moment()));
      ghost var start := store.db;
      var err;
      ghost var receipts;
      err, receipts := CheckAllReceipts(chain[0].number);
      if err.Some? {
        log := HeadLog(receipts.done, receipts, [], [], start, Marking(None, start, start, [], []), Moment(), ticks);
        return [err.value], log;
      }
      ghost var t, n, f := store.trace, ticks, store.failures;
      errors, log := RebroadcastAndMark(headCtx, chain, receipts);
      ExcusedBefore(errors, log, chain, n, f, old(ticks), old(store.failures), ticks, store.failures);
      ContinuedTransitive(old(store.trace), t, store.trace);
      if log.done >= 4 && log.marking.err.Some? {
        GaveUpSince(log.marking.err.value, log.marking.seen, chain, f, store.failures, old(store.failures));
      }
    }

    /** What a head came to: no error exactly if all five phases ended without one. */
    ghost predicate HeadServed(r: HeadRun, chain: seq<Block>)
      requires |chain| > 0
    {
      && r.log.done <= 5 && (r.errors == [] <==> r.log.done == 5)
      && r.log.receipts.done == (if r.log.done < 3 then r.log.done else 3)
      && ReceiptPhases(r.log.receipts, chain[0].number, r.start, r.asked)
      && (r.log.done < 3 ==> ReceiptsLeft(r.log.receipts, r.end))
      && (r.log.done >= 3 ==> KeyPhases(r.log, chain, r.errors, r.end, r.failed, r.failures))
      && (r.ended < r.ctx.cancelAt && r.log.done >= 3 ==> KeysRebroadcast(r.log, chain[0].number, r.end))
      && forall e :: e in r.errors ==> Excused(e, r.log, chain, r.asked, r.failed, r.answered, r.failures)
    }

    /** Why a head ends in this error: one of its transactions lost all attempts, or was re-orged
        and is refused by the store; and otherwise a call of the store failed, or the node or
        the estimator gave an answer that leads to it. */
    ghost predicate Excused(e: Error, log: HeadLog, chain: seq<Block>, t: nat, f: nat, now: nat, failures: nat)
      requires |chain| > 0
    {
      || CausedWithin(e, t, f, now, failures)
      || (e.InvariantViolation? && log.done == 3 && exists i :: 0 <= i < |log.rounds| && HasBare(log.rounds[i].due))
      || (e == Store(Violation) && log.done == 4 && SomeRefused(log.marking.seen, chain))
    }

    lemma ExcusedBefore(errors: seq<Error>, log: HeadLog, chain: seq<Block>, t: nat, f: nat, t': nat, f': nat, now: nat, failures: nat)
      requires |chain| > 0 && t' <= t && f' <= f && forall e :: e in errors ==> Excused(e, log, chain, t, f, now, failures)
      ensures forall e :: e in errors ==> Excused(e, log, chain, t', f', now, failures)
    {
    }

    ghost predicate HasBare(due: seq<Loaded>) { exists k :: 0 <= k < |due| && due[k].attempts == [] }

    /** The phases after the receipts. */
    method RebroadcastAndMark(ctx: Context, chain: seq<Block>, ghost receipts: ReceiptLog)
      returns (errors: seq<Error>, ghost log: HeadLog)
      requires Valid() && |chain| > 0 && receipts.done == 3 && receipts.received == store.db
      modifies this, store
      ensures store.After(old(store.trace), old(store.clock), old(store.failures)) && old(ticks) <= ticks
      ensures 3 <= log.done <= 5 && (errors == [] <==> log.done == 5) && log.receipts == receipts
      ensures KeyPhases(log, chain, errors, store.db, old(store.failures), store.failures)
      ensures !Cancelled(ctx) ==> KeysRebroadcast(log, chain[0].number, store.db)
      ensures forall e :: e in errors ==> Excused(e, log, chain, old(ticks), old(store.failures), ticks, store.failures)
      ensures old(Cancelled(ctx)) ==> ticks == old(ticks)
      ensures log.moment == old(Moment()) && log.asked == old(ticks)
    {
      ghost var errs, rounds, moment, asked;
      moment, asked := Moment(), ticks;
      errors, errs, rounds := RebroadcastAll(ctx, chain[0].number);
      log := HeadLog(3, receipts, errs, rounds, store.db, Marking(None, store.db, store.db, [], []), moment, asked);
      if !Cancelled(ctx) {
        AllKeysDone(store.db, errs);
      }
      RoundErrorsAreExcused(log, chain, old(ticks), old(store.failures));
      if errors != [] {
        return;
      }
      ghost var m;
      ghost var t, n, f := store.trace, ticks, store.failures;
      errors, m := EnsureConfirmedTransactionsInLongestChain(ctx, chain);
      ContinuedTransitive(old(store.trace), t, store.trace);
      log := log.(done := if errors == [] then 5 else 4, marking := m);
      if !Cancelled(ctx) && errors == [] {
        AllKeysDone(store.db, m.errs);
      }
      if errors != [] {
        LaterErrorsAreExcused(log, chain, errors, n, f, old(ticks), old(store.failures));
      }
    }

    lemma RoundErrorsAreExcused(log: HeadLog, chain: seq<Block>, t: nat, f: nat)
      requires |chain| > 0 && log.done == 3 && |log.errs| == |log.rounds|
      requires AllCaused(log.errs, log.rounds, t, f, ticks, store.failures)
      ensures forall e :: e in ErrorsOf(log.errs) ==> Excused(e, log, chain, t, f, ticks, store.failures)
    {
      forall e | e in ErrorsOf(log.errs)
        ensures Excused(e, log, chain, t, f, ticks, store.failures)
      {
        var i := ErrorIsListed(log.errs, e);
      }
    }

    lemma LaterErrorsAreExcused(log: HeadLog, chain: seq<Block>, errors: seq<Error>, t: nat, f: nat, t': nat, f': nat)
      requires |chain| > 0 && log.done == 4 && t' <= t && f' <= f
      requires if log.marking.err.Some? then
                 errors == [log.marking.err.value] && GaveUp(log.marking.err.value, log.marking.seen, chain, f, store.failures)
               else forall e :: e in errors ==> Caused(e, t, f)
      ensures forall e :: e in errors ==> Excused(e, log, chain, t', f', ticks, store.failures)
    {
    }

    /** The errors of the keys, or else how the marking went. */
    ghost predicate KeyPhases(log: HeadLog, chain: seq<Block>, errors: seq<Error>, d: Db, f: nat, failures: nat)
      requires |chain| > 0
    {
      && (log.done == 3 ==> errors == ErrorsOf(log.errs))
      && (log.done >= 4 ==>
            && Marked(log.marking, chain, log.rebroadcast, f, failures)
            && (if log.marking.err.Some? then errors == [log.marking.err.value] && log.marking.marked == d
                else errors == ErrorsOf(log.marking.errs)))
    }

    /** Each enabled key had its round, whether the phase ended in errors or not, and after the
        marking another one for its leftovers; without any errors, no enabled key has leftovers
        then, and none at the end of the head. */
    ghost predicate KeysRebroadcast(log: HeadLog, blockNum: int, d: Db) {
      && |log.errs| == |log.rounds| == |enabledAddresses|
      && KeysDone(log.rebroadcast, log.errs)
      && InTurn(log.receipts.received, log.errs, log.rounds, log.rebroadcast, Some(blockNum))
      && (log.done >= 4 && log.marking.err.None? ==> LeftoversSent(log.marking, d))
      && forall key :: key in enabledAddresses ==>
           && (log.done >= 4 ==> NoLeftovers(log.rebroadcast, key))
           && (log.done == 5 ==> NoLeftovers(d, key))
    }

    /** The phases that look at receipts, up to the first error. */
    method CheckAllReceipts(blockNum: int) returns (err: Option<Error>, ghost log: ReceiptLog)
      requires Valid()
      modifies this`ticks, store
      ensures store.After(old(store.trace), old(store.clock), old(store.failures)) && old(ticks) <= ticks
      ensures log.done <= 3 && (err.None? <==> log.done == 3)
      ensures err.None? ==> log.received == store.db
      ensures ReceiptPhases(log, blockNum, old(store.db), old(ticks))
      ensures err.Some? ==> ReceiptsLeft(log, store.db)
      ensures err.Some? ==> Caused(err.value, old(ticks), old(store.failures))
    {
      var e, seen := store.SetBroadcastBeforeBlockNum(blockNum);
      log := ReceiptLog(0, seen, store.db, seen, [], seen, seen, ReceiptRound(seen, [], map[], [], seen, seen), seen);
      if e.Some? {
        return Some(Store(e.value)), log;
      }
      ghost var missing, resent, seenAgain;
      ghost var t := store.trace;
      err, missing, resent, seenAgain := CheckConfirmedMissingReceipt();
      ContinuedTransitive(old(store.trace), t, store.trace);
      log := log.(done := 1, missing := missing, resent := resent, seenAgain := seenAgain, sentAgain := store.db);
      if err.Some? {
        return;
      }
      ghost var round;
      ghost var t2 := store.trace;
      err, round := CheckForReceipts(blockNum);
      ContinuedTransitive(old(store.trace), t2, store.trace);
      log := log.(done := if err.None? then 3 else 2, round := round, received := store.db);
    }

    ghost predicate ReceiptPhases(log: ReceiptLog, blockNum: int, d: Db, t: nat) {
      && Framed(d, log.seen, {})
      && (log.done >= 1 ==> StampedOnly(log.seen, log.stamped, blockNum))
      && (log.done >= 2 ==> SentAgainWhenDue(log, t))
      && (log.done >= 3 ==> ReceiptsChecked(log, blockNum))
    }

    /** What the phase that ended in an error wrote before it. */
    ghost predicate ReceiptsLeft(log: ReceiptLog, d: Db) {
      && (log.done == 0 ==> d == log.seen)
      && (log.done == 1 ==> Framed(log.stamped, d, {}))
      && (log.done == 2 ==> Framed(log.sentAgain, log.round.seen, {}) && RoundLeft(log.round, d))
    }

    ghost predicate SentAgainWhenDue(log: ReceiptLog, t: nat) {
      && Framed(log.stamped, log.missing, {}) && AreMissing(log.missing, log.resent) && Framed(log.missing, log.seenAgain, {})
      && (if log.resent == [] then log.sentAgain == log.seenAgain
          else SentAgain(log.seenAgain, log.sentAgain, log.resent, world.batchSend(t)))
    }

    ghost predicate ReceiptsChecked(log: ReceiptLog, blockNum: int) {
      && Framed(log.sentAgain, log.round.seen, {})
      && (if forall p :: !IsPending(log.round.seen.txs, p) then log.received == log.round.seen
          else RoundDone(log.round, log.received, blockNum))
    }

    /** The run loop: head after head, whatever became of the one before, until the context is
        cancelled. No state it committed or saw had a transaction with two in_progress attempts. */
    method RunLoop(ctx: Context, heads: seq<seq<Block>>) returns (ghost runs: seq<HeadRun>)
      requires Valid() && forall k :: 0 <= k < |heads| ==> |heads[k]| > 0
      modifies this, store
      ensures store.After(old(store.trace), old(store.clock), old(store.failures)) && old(ticks) <= ticks
      ensures forall d, id :: d in store.trace.states && id in d.txs ==> AtMostOneUnsent(d.txs[id])
      ensures |runs| <= |heads| && (|runs| < |heads| ==> Cancelled(ctx))
      ensures ServedInTurn(old(store.db), runs, store.db, heads)
    {
      runs := [];
      NeverTwoUnsent();
      for i := 0 to |heads|
        invariant store.After(old(store.trace), old(store.clock), old(store.failures)) && old(ticks) <= ticks
        invariant forall d, id :: d in store.trace.states && id in d.txs ==> AtMostOneUnsent(d.txs[id])
        invariant |runs| == i && ServedInTurn(old(store.db), runs, store.db, heads)
      {
        if Cancelled(ctx) {
          return;
        }
        ghost var t, start, n, f, headCtx := store.trace, store.db, ticks, store.failures, ctx.WithTimeout(world.deadline(Moment()));
        var errors, log := ProcessHead(ctx, heads[i]);
        ghost var r := HeadRun(start, store.db, headCtx, Moment(), n, ticks, f, store.failures, errors, log);
        OneMoreServed(old(store.db), runs, heads, r);
        runs := runs + [r];
        ContinuedTransitive(old(store.trace), t, store.trace);
        NeverTwoUnsent();
      }
    }

    ghost predicate IsServed(r: HeadRun, chain: seq<Block>) { |chain| > 0 && HeadServed(r, chain) }

    /** The first heads were served, each beginning with what the one before left. */
    ghost predicate ServedInTurn(d: Db, runs: seq<HeadRun>, d': Db, heads: seq<seq<Block>>) {
      && Along((r, chain) => IsServed(r, chain), runs, heads)
      && (forall k :: 0 < k < |runs| ==> runs[k].start == runs[k - 1].end)
      && if runs == [] then d' == d else runs[0].start == d && runs[|runs| - 1].end == d'
    }

    lemma OneMoreServed(d: Db, runs: seq<HeadRun>, heads: seq<seq<Block>>, r: HeadRun)
      requires |runs| < |heads| && ServedInTurn(d, runs, r.start, heads) && IsServed(r, heads[|runs|])
      ensures ServedInTurn(d, runs + [r], r.end, heads)
    {
      OneMoreAlong((r, chain) => IsServed(r, chain), runs, r, heads);
    }

    lemma NeverTwoUnsent()
      requires Valid()
      ensures forall d, id :: d in store.trace.states && id in d.txs ==> AtMostOneUnsent(d.txs[id])
    {
      forall d, id | d in store.trace.states && id in d.txs
        ensures AtMostOneUnsent(d.txs[id])
      {
        var n :| 0 <= n < |store.trace.states| && store.trace.states[n] == d;
        ConfirmerRunGuarantee(store.trace, n, 0);
      }
    }
  }
}
