/** Transactions, attempts and the database the transaction manager keeps them in.

    One `Db` is everything the Broadcaster and the Confirmer share: the rows of
    the transaction table, each with the attempts that belong to it, and the
    keystore's next sequence of every key. Row and attempt identifiers come from
    counters and are never used twice. `handed` is history: for every key, the
    sequences of the transactions that were handed over to the Confirmer, in the
    order in which that happened. */
module TxTypes {
  import opened Options

  type Addr = int

  datatype TxState = Unstarted | InProgress | FatalError | Unconfirmed | Confirmed | ConfirmedMissingReceipt

  datatype AttemptState = AttemptInProgress | AttemptInsufficientFunds | AttemptBroadcast

  datatype Receipt = Receipt(txHash: int, blockHash: int, blockNumber: int)

  /** An attempt that was never saved has identifier 0. */
  datatype Attempt = Attempt(
    id: int, txId: int, txHash: int, fee: int, txType: int, state: AttemptState, broadcastBefore: Option<int>, receipts: seq<Receipt>)

  datatype Tx = Tx(
    id: int, from: Addr, value: int, createdAt: int, state: TxState, sequence: Option<int>, attempts: map<int, Attempt>,
    broadcastAt: Option<int>, initialBroadcastAt: Option<int>, error: bool)

  datatype Db = Db(
    txs: map<int, Tx>, lastTxId: int, lastAttemptId: int, next: map<Addr, int>, handed: map<Addr, seq<int>>)

  /** What the node answers when it is given a transaction to send. `Other` is
      any code outside the list; the source treats it like `Unknown`. */
  datatype SendCode =
    | Successful | Fatal | Retryable | Underpriced | Unknown | Unsupported
    | TransactionAlreadyKnown | InsufficientFunds | ExceedsMaxFee | FeeOutOfValidRange | Other

  datatype SendReply = SendReply(code: SendCode, failed: bool)

  /** The contract the retry logic needs of the client: a code that does not
      mean "the node has it" comes with an error. */
  predicate ClientContract(r: SendReply) {
    r.failed || r.code.Successful? || r.code.TransactionAlreadyKnown?
  }

  type NodeReply = r: SendReply | ClientContract(r) witness SendReply(Successful, false)

  // ---------------------------------------------------------------- queries

  predicate InState(db: Db, key: Addr, state: TxState, id: int) {
    id in db.txs && db.txs[id].from == key && db.txs[id].state == state
  }

  function IdsInState(db: Db, key: Addr, state: TxState): set<int> {
    set id | id in db.txs && InState(db, key, state, id)
  }

  /** Transactions that take up a slot of MaxInFlight, counting the one being sent. */
  function InFlightIds(db: Db, key: Addr): set<int> {
    set id | id in db.txs && (InState(db, key, InProgress, id) || InState(db, key, Unconfirmed, id))
  }

  predicate WithConfirmer(state: TxState) {
    state.Unconfirmed? || state.Confirmed? || state.ConfirmedMissingReceipt?
  }

  // -------------------------------------------------------------- invariant

  /** The sequences handed over are consecutive and end just below `next`. */
  ghost predicate HandedInOrder(handed: seq<int>, next: int) {
    forall i :: 0 <= i < |handed| ==> handed[i] == next - |handed| + i
  }

  /** The single saved attempt of a transaction that is being sent. */
  ghost predicate OneUnsentAttempt(attempts: map<int, Attempt>) {
    exists id :: id in attempts && attempts == map[id := attempts[id]] && attempts[id].state.AttemptInProgress?
  }

  ghost predicate AttemptsOk(tx: Tx, lastAttemptId: int) {
    forall a :: a in tx.attempts ==> tx.attempts[a].id == a && tx.attempts[a].txId == tx.id && 0 < a <= lastAttemptId
  }

  ghost predicate RowOk(db: Db, id: int)
    requires id in db.txs && db.txs[id].from in db.next
  {
    var tx := db.txs[id];
    && tx.id == id
    && id <= db.lastTxId
    && AttemptsOk(tx, db.lastAttemptId)
    && match tx.state
       case Unstarted => tx.sequence.None? && tx.attempts == map[]
       case InProgress => tx.sequence == Some(db.next[tx.from]) && OneUnsentAttempt(tx.attempts)
       case FatalError => tx.sequence.None?
       case _ => tx.sequence.Some? && tx.sequence.value < db.next[tx.from]
  }

  ghost predicate SequencesUnique(db: Db) {
    forall i, j | i in db.txs && j in db.txs && db.txs[i].from == db.txs[j].from ::
      db.txs[i].sequence.Some? && db.txs[i].sequence == db.txs[j].sequence ==> i == j
  }

  /** What every committed state of the database satisfies. */
  ghost predicate Inv(db: Db) {
    && db.next.Keys == db.handed.Keys
    && (forall key :: key in db.next ==> HandedInOrder(db.handed[key], db.next[key]))
    && (forall id :: id in db.txs ==> db.txs[id].from in db.next && RowOk(db, id))
    && SequencesUnique(db)
    && 0 <= db.lastAttemptId
  }

  /** Inv, read as the guarantee the Broadcaster gives for one key: at most one
      transaction is being sent, it carries exactly the keystore's next sequence
      and has exactly one saved attempt, and the Confirmer was handed every
      sequence below that one, once each and in order. */
  ghost predicate KeyGuarantee(db: Db, key: Addr)
    requires key in db.next && key in db.handed
  {
    && (forall i, j :: InState(db, key, InProgress, i) && InState(db, key, InProgress, j) ==> i == j)
    && (forall i :: InState(db, key, InProgress, i) ==>
          && db.txs[i].sequence == Some(db.next[key])
          && |db.txs[i].attempts| == 1
          && forall a :: a in db.txs[i].attempts ==> db.txs[i].attempts[a].state.AttemptInProgress?)
    && (forall i :: 0 <= i < |db.handed[key]| ==> db.handed[key][i] == db.next[key] - |db.handed[key]| + i)
    && (forall i :: i in db.txs && db.txs[i].from == key && WithConfirmer(db.txs[i].state) ==>
          db.txs[i].sequence.Some? && db.txs[i].sequence.value < db.next[key])
  }

  lemma InvGivesKeyGuarantee(db: Db, key: Addr)
    requires Inv(db) && key in db.next
    ensures KeyGuarantee(db, key)
  {
  }
}
