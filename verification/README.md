# The transaction manager and head tracker of a Chainlink node, verified in Dafny

The project models the stateful core of the Chainlink node that the exchange's repository carries in
`lib/chainlink`: the transaction manager with its Broadcaster and Confirmer, the pipeline from a new head to its
subscribers, the concurrency primitives underneath, and the fee, amount and word arithmetic.

* **Transaction manager.** The database and the keystore are one value, `Db`. The stores are classes whose methods
  are single atomic calls: before each call everybody else may act (an arbitrary function within a stated rely
  condition), and the call may fail. Broadcaster and Confirmer are classes whose methods follow the source; the
  node, the estimator, checks and callbacks answer arbitrarily, up to the one contract that the retry logic needs
  of the client (every return code other than success or already known comes with an error). Every committed state
  is kept in a ghost trace, so each prefix of it is a crash. The rely conditions of both sides are matched against
  what the others really do in `JointRuns`, which interleaves the store calls of everybody.
* **Protocols.** The run loop of `Txm`, `StartStopOnce` and the head pipeline are state machines over their atomic
  steps; the theorems hold for every interleaving.
* **Data structures and codecs.** Mailbox, bounded queues, backfill and amounts are classes or methods proved against
  specifications; the codecs have round trips in both directions.

Facts worth knowing about the source:

* `separateLikelyConfirmedAttempts` keeps one attempt more than the example in its comment says; the code is followed.
* The comment on `handleAnyInProgressAttempts` promises one in_progress attempt per transaction. That holds in every
  state, under cancellation and for disabled keys too, because an in_progress attempt is always the dearest one and
  because the store refuses to mark anything but a broadcast attempt.
* `FindTransactionsConfirmedInBlockRange` also returns transactions in confirmed_missing_receipt, and confirmed ones
  whose dearest attempt is still in_progress or out of funds. If such a one is re-orged, `UpdateTxForRebroadcast`
  refuses it and the phase ends with that error: that is the only way it fails while the store does not
  (`MarkReorged`), and a run gets there (`UnmarkableIsReached`).
* The attempt that is handled is always the dearest, so the assumption violation in confirmer.go:836-839 is
  unreachable. The invariant violation in confirmer.go:771 is not: a transaction whose only attempt is sent again and
  rejected for good has none left (`LosesLastAttemptIff`, `LostIsReached`), and from then on it stops the rebroadcasts
  of its key (`BareStopsTheKey`, `LostForGood`).
* `StopOnce` loads the state after its compare-and-swap failed, so a start in between makes `EnsureClosed` report an
  error for a service that was not started (`StartSlipsIn`).
* The check for `stopped` in the reset case of the run loop never fires: the stop channel closes only while nobody is
  inside `Reset`.
* The callback of `Txm.Reset` may set the keystore's counter to anything. A counter that does not fit the rows breaks
  the invariant (`ResetKeepsInvIff` says when), and one set past a transaction in progress stops the key: its
  hand-over fails with a sequence mismatch again and again (`MismatchedForGood`, `MisfitExample`).
* `CheckConfirmedMissingReceipt` takes the empty error that the client preallocates for a success, so a batch that
  fails as a whole sends all its transactions back to unconfirmed (`FailedBatchSendsAllBack`).
* `addPercentage` lowers prices for percentages above 65435, and `MinInt256` excludes the smallest 256-bit integer.

## Model

| member | source | states |
|---|---|---|
| `Fee.CalculateBumpedFee` | lib/chainlink/common/fee/models.go:37-85 | With a non-negative bumpMin an accepted bump is a strict increase by at least bumpMin, stays under both caps, does not fall behind a market price under the cap, and uses up room under the cap |
| `Fee.BumpIsLargestCandidate` | lib/chainlink/common/fee/models.go:37-85 | The result is the largest of percentage bump, fixed bump and a market price within the cap; it is accepted exactly when it stays under both caps and differs from the price replaced |
| `Fee.AddPercentageIsExact` | lib/chainlink/common/fee/utils.go:21-26 | A bump by a percentage adds value * percentage / 100, rounded down; above 65435 it multiplies by percentage - 65436 instead |
| `Fee.ChainGrows` | lib/chainlink/common/fee/models.go:37-60 | A chain of n accepted bumps raises the fee by at least n and by at least n times bumpMin, and ends under the cap |
| `Fee.BumpsAreBounded` | lib/chainlink/common/fee/models.go:37-60 | However the market moves, at most (cap - original) / bumpMin bumps of one transaction succeed |
| `Fee.PercentageNeverLowersIff` | lib/chainlink/common/fee/utils.go:21-26 | The percentage step never lowers a positive price if and only if the percentage is at most 65435: the sum with 100 is taken in sixteen bits |
| `Fee.PercentageWrapExample` | lib/chainlink/common/fee/utils.go:21-26 | Percentage 65436 turns a price into zero |
| `AttemptBuilder.NewBumpTxAttempt` | lib/chainlink/core/chains/evm/txmgr/attempts.go:68-80 | A replacement is in_progress, unsaved, signed anew and of the same type, at exactly the price the fee arithmetic accepts on the estimate, and leaves strictly less room under the cap; it is refused for the reason the estimator or the arithmetic gives; a lost connection and a failed signing are told apart |
| `TxTypes.InvGivesKeyGuarantee` | lib/chainlink/common/txmgr/broadcaster.go:431-686 | The database invariant, read for one key: at most one transaction is in_progress, it has exactly one saved attempt and carries the next sequence of the keystore, and everything handed over lies below it without gap or duplicate |
| `BroadcasterProtocol.OwnStepKeepsInv` | lib/chainlink/common/txmgr/broadcaster.go:431-686 | Each of the four writes of the Broadcaster (put in progress, replace the attempt, hand over, fail) keeps the invariant where it is made |
| `BroadcasterProtocol.StepKeepsInv` | lib/chainlink/common/txmgr/broadcaster.go:508-516 | Over any step of anybody, the list of handed over sequences stays or grows by exactly the next one, together with the counter |
| `BroadcasterProtocol.RunGuarantee` | lib/chainlink/common/txmgr/broadcaster.go:431-686 | In every state of every run, with any interference and cut off anywhere, the guarantee for the key holds and the Confirmer was handed start, start+1, ..., next-1 |
| `BroadcasterProtocol.CrashAndRestart` | lib/chainlink/common/txmgr/broadcaster.go:495-507 | What a restarted process does from the state a crash left behind extends the run before the crash to a run |
| `BroadcasterProtocol.RelyTransitive` | lib/chainlink/common/txmgr/broadcaster.go:431-686 | Any number of steps of the others between two calls is one step of the others |
| `BroadcasterProtocol.InFlightAfter` | lib/chainlink/common/txmgr/broadcaster.go:444-464 | Only putting a transaction in progress raises the number in flight, by one; handing over and replacing keep it and failing lowers it |
| `BroadcasterProtocol.InFlightUnderRely` | lib/chainlink/common/txmgr/broadcaster.go:444-464 | While nobody returns transactions to unconfirmed, the others never raise the number in flight |
| `BroadcasterProtocol.HandOverMeans` | lib/chainlink/core/chains/evm/txmgr/evm_tx_store.go:1298-1333 | What handing over does to row, attempt, times, counter and history; nothing of the key is in progress afterwards |
| `BroadcasterProtocol.FatalMeans` | lib/chainlink/core/chains/evm/txmgr/evm_tx_store.go:1271-1293 | What failing does to the row; nothing of the key is in progress afterwards |
| `BroadcasterProtocol.SetNextKeepsInvIff` | lib/chainlink/core/services/keystore/eth.go:306-327 | Setting the counter of a key keeps the invariant if and only if a transaction in progress keeps its sequence and everything handed over lies below the new counter |
| `BroadcasterProtocol.MismatchedForGood` | lib/chainlink/common/txmgr/broadcaster.go:508-516 | Where the counter was set past a transaction in progress, no run hands anything of the key over again, unless the node rejects that transaction for good |
| `BroadcasterProtocol.MisfitExample` | lib/chainlink/core/web/eth_keys_controller.go:300-302 | Sequence 0 is being sent and the counter is set to 5: the invariant is lost and the transaction is stuck |
| `BroadcasterStore.TxStore.GetTxInProgress` | lib/chainlink/core/chains/evm/txmgr/evm_tx_store.go:1397-1424 | Finds the in_progress transaction of the key with its single in_progress attempt, or there is none; its own sanity checks never fail |
| `BroadcasterStore.TxStore.CountUnconfirmedTransactions` | lib/chainlink/core/chains/evm/txmgr/evm_tx_store.go:1460-1462 | Counts exactly the unconfirmed transactions of the key |
| `BroadcasterStore.TxStore.FindNextUnstartedTransactionFromAddress` | lib/chainlink/core/chains/evm/txmgr/evm_tx_store.go:1263-1269 | The first unstarted transaction of the key by value, creation time and id, or there is none |
| `BroadcasterStore.TxStore.NextSequence` | lib/chainlink/common/txmgr/broadcaster.go:762-764 | The next sequence of the keystore; it is the value the Broadcaster left there, because a reset sets it only while the Broadcaster is down |
| `BroadcasterStore.TxStore.UpdateTxUnstartedToInProgress` | lib/chainlink/core/chains/evm/txmgr/evm_tx_store.go:1336-1391 | Puts a transaction that was not pruned meanwhile in progress, with its sequence, its saved attempt and nothing else changed; a failed call and a pruned transaction are told apart, and leave nothing in progress |
| `BroadcasterStore.TxStore.SaveReplacementInProgressAttempt` | lib/chainlink/core/chains/evm/txmgr/evm_tx_store.go:1239-1260 | Swaps the attempt in one database transaction; the transaction stays in progress with the new attempt, or exactly if the call fails with the old one |
| `BroadcasterStore.TxStore.UpdateTxAttemptInProgressToBroadcast` | lib/chainlink/core/chains/evm/txmgr/evm_tx_store.go:1298-1333 | Hands over: the row is unconfirmed with the attempt that was sent marked as broadcast and both times set, its sequence is appended to what was handed over and the counter advanced by one; exactly if the call fails nothing happened |
| `BroadcasterStore.TxStore.UpdateTxFatalError` | lib/chainlink/core/chains/evm/txmgr/evm_tx_store.go:1271-1293 | Fails the transaction, without attempts, sequence and times, and keeps the counter; exactly if the call fails nothing happened |
| `Broadcaster.Broadcaster.ProcessUnstartedTxs` | lib/chainlink/common/txmgr/broadcaster.go:431-492 | Without an error nothing is in_progress, nothing was unstarted at the last look-up, and the caller is not asked to retry; every error has a cause, a failed store call or an answer of checker, estimator, node or pipeline, and decides whether to retry; with a fixed limit no committed state has more in flight |
| `Broadcaster.Broadcaster.Throttle` | lib/chainlink/common/txmgr/broadcaster.go:444-464 | Waits exactly while the limit is on and reached by the unconfirmed transactions; whoever goes on finds room under it |
| `Broadcaster.Broadcaster.ProcessNext` | lib/chainlink/common/txmgr/broadcaster.go:465-491 | One round: the transaction picked is the first unstarted one, and it was pruned meanwhile or put in progress with an attempt at the estimated price and sent, with everything that became of it as for HandleInProgressTx; done means none was unstarted |
| `Broadcaster.Broadcaster.HandleAnyInProgressTx` | lib/chainlink/common/txmgr/broadcaster.go:495-507 | The transaction that an earlier process left in progress is sent with its attempt as it is, and handled as any other, unless there was none; without an error nothing is left in_progress |
| `Broadcaster.Broadcaster.HandleInProgressTx` | lib/chainlink/common/txmgr/broadcaster.go:520-668 | The whole course of one call: the attempts sent in turn, each saved in place of the one before because the node wanted another price, and how the last one ended. It fails only if the checker rejected it or the node called it fatal; it is handed over, with the attempt that was sent last, only if the node has that attempt or its pending sequence is above; after an error it is still in progress with that attempt. The mutual recursion terminates |
| `Broadcaster.Broadcaster.Send` | lib/chainlink/common/txmgr/broadcaster.go:551-668 | The switch over the return codes. Underpriced: replaced by the attempt at the bumped price, which is saved and asked about next, or the refusal is the error. Out of range: the same with a new estimate, except for type 2. All other codes end the call as for Conclude |
| `Broadcaster.Broadcaster.Conclude` | lib/chainlink/common/txmgr/broadcaster.go:551-668 | Success or already known hands over, fatal fails, a missing fund or a retryable error is reported as such, unsupported without a retry, and anything else asks for the pending sequence |
| `Broadcaster.Broadcaster.HandledIsCaused` | lib/chainlink/common/txmgr/broadcaster.go:520-668 | Whatever error a transaction ends in was caused by a failed store call or an answer in this call, and it decides whether to retry |
| `Broadcaster.Broadcaster.AssumeSuccess` | lib/chainlink/common/txmgr/broadcaster.go:566-608 | The transaction is handed over with its sequence and the attempt that was sent, or exactly if the store fails it is still in progress with it |
| `Broadcaster.Broadcaster.AskPendingSequence` | lib/chainlink/common/txmgr/broadcaster.go:640-663 | After an unknown error the transaction is handed over exactly when the pending sequence of the node is above its own |
| `Broadcaster.Broadcaster.NextUnstartedTransactionWithSequence` | lib/chainlink/common/txmgr/broadcaster.go:670-686 | The first unstarted transaction of the key, with exactly the next sequence of the keystore, or none was unstarted |
| `Broadcaster.Broadcaster.TryAgainBumpingGas` | lib/chainlink/common/txmgr/broadcaster.go:688-705 | After underpriced: a refused bump or a failed build is the error, and otherwise the attempt at the price that the fee arithmetic accepts is the one saved and asked about next; the room under the cap is the termination measure |
| `Broadcaster.Broadcaster.TryAgainWithNewEstimation` | lib/chainlink/common/txmgr/broadcaster.go:707-722 | After out of range: an attempt at the new estimate, of the same type, is the one saved and asked about next; type 2 is refused and a failed build reported |
| `Broadcaster.Broadcaster.SaveTryAgainAttempt` | lib/chainlink/common/txmgr/broadcaster.go:724-730 | The replacement is saved before it is sent, and handled as any attempt; if it cannot be saved the old one is still in progress |
| `Broadcaster.Broadcaster.SaveFatallyErroredTransaction` | lib/chainlink/common/txmgr/broadcaster.go:732-760 | Fails the transaction and keeps the counter; a failing resume callback leaves it in progress, one that was resumed already does not |
| `ConfirmerProtocol.PricedMeansOneUnsent` | lib/chainlink/common/txmgr/confirmer.go:660-667 | Where the attempts of a transaction have distinct fees and an in_progress one is the dearest, at most one is in_progress |
| `ConfirmerProtocol.ConfirmerStepIsHarmless` | lib/chainlink/common/txmgr/confirmer.go:277-321 | Every store call of the Confirmer keeps the invariant and is one that the Broadcaster of any key puts up with |
| `ConfirmerProtocol.BroadcasterStepIsHarmless` | lib/chainlink/common/txmgr/broadcaster.go:431-686 | Every store call of a Broadcaster is one that the Confirmer puts up with: a transaction comes into its care with its attempt marked as broadcast |
| `ConfirmerProtocol.OtherBroadcasterIsHarmless` | lib/chainlink/common/txmgr/broadcaster.go:204-241 | The Broadcasters of different keys do not disturb each other |
| `ConfirmerProtocol.EnqueueIsHarmless` | lib/chainlink/core/chains/evm/txmgr/evm_tx_store.go:1487-1526 | Creating a transaction disturbs neither the Broadcaster nor the Confirmer |
| `ConfirmerProtocol.DeleteIsHarmless` | lib/chainlink/core/chains/evm/txmgr/evm_tx_store.go:1528-1604 | Pruning unstarted and reaping finished transactions disturbs neither of them |
| `ConfirmerProtocol.TouchIsHarmless` | lib/chainlink/core/chains/evm/txmgr/evm_tx_store.go:674-684 | Recording that transactions were sent again disturbs neither of them |
| `ConfirmerProtocol.AbandonKeepsInv` | lib/chainlink/core/chains/evm/txmgr/evm_tx_store.go:1606-1609 | Abandoning a key keeps the invariant and the prices and leaves each of its transactions confirmed or failed |
| `ConfirmerProtocol.ResetKeepsInvIff` | lib/chainlink/common/txmgr/txmgr.go:202-229 | A reset, which may set the counter and may abandon the key, keeps the invariant if and only if the counter is left alone or fits what the reset leaves of the key; the prices survive any reset |
| `ConfirmerProtocol.AddKeyIsHarmless` | lib/chainlink/core/services/keystore/eth.go:241-254 | A new key, counting from 0, disturbs neither the Broadcasters nor the Confirmer |
| `ConfirmerRuns.OwnCallKeepsState` | lib/chainlink/common/txmgr/confirmer.go:277-321 | Each of the ten writes of the Confirmer, made where it makes it, keeps the invariant and the prices: an in_progress attempt stays the dearest and the only one |
| `ConfirmerRuns.ConfirmerRunGuarantee` | lib/chainlink/common/txmgr/confirmer.go:660-666 | In every state of every run, under cancellation and for disabled keys too, no transaction has two in_progress attempts |
| `ConfirmerRuns.LosesLastAttemptIff` | lib/chainlink/common/txmgr/confirmer.go:857-878 | A transaction in the care of the Confirmer loses its last attempt exactly when the node rejects its only attempt for good |
| `ConfirmerRuns.LostForGood` | lib/chainlink/common/txmgr/confirmer.go:771-774 | A transaction that lost its attempts stays without any for the rest of every run, neither sent nor confirmed nor failed, unless it is deleted |
| `ConfirmerExamples.LostIsReached` | lib/chainlink/common/txmgr/confirmer.go:771-774 | A run from one handed over transaction to an unconfirmed one without attempts, which the source calls an invariant violation |
| `ConfirmerExamples.UnmarkableIsReached` | lib/chainlink/common/txmgr/confirmer.go:929-935 | A run from one handed over transaction to a re-orged one that the store refuses to mark |
| `JointRuns.JointRunGuarantee` | lib/chainlink/common/txmgr/broadcaster.go:431-686 | However the Broadcasters of all keys, the Confirmer, creations, deletions, the resender, new keys and resets that fit interleave: in every state no transaction has two in_progress attempts and the guarantee holds for every key |
| `JointRuns.HandedOverInOrder` | lib/chainlink/common/txmgr/broadcaster.go:508-516 | Between two settings of its counter every key hands over start, start+1, ..., next-1 in this order, abandoned on the way or not |
| `JointRuns.JointRunIsRunForEach` | lib/chainlink/common/txmgr/confirmer.go:277-321 | While there is no reset, a joint run is a run of the Broadcaster of each key and a run of the Confirmer: what the others really do is within what each side relies on |
| `ConfirmerStore.ConfirmerStore.GetInProgressTxAttempts` | lib/chainlink/core/chains/evm/txmgr/evm_tx_store.go:874-891 | Finds every transaction of the key in the care of the Confirmer that has an attempt left in_progress, each once |
| `ConfirmerStore.ConfirmerStore.LoadTxAttempts` | lib/chainlink/core/chains/evm/txmgr/evm_tx_store.go:598-600 | All attempts of the transaction, the dearest first |
| `ConfirmerStore.ConfirmerStore.SaveInProgressAttempt` | lib/chainlink/core/chains/evm/txmgr/evm_tx_store.go:1057-1085 | A new attempt is inserted as it is, or a saved one marked as in_progress with the stamp it is given; nothing else of the transaction changes, and it fails only with the call or for want of the row |
| `ConfirmerStore.ConfirmerStore.SaveReplacementInProgressAttempt` | lib/chainlink/core/chains/evm/txmgr/evm_tx_store.go:1239-1260 | The row is as before with the old attempt gone and the new one there instead; it fails only with the call or for want of the row |
| `ConfirmerStore.ConfirmerStore.FinishAttempt` | lib/chainlink/core/chains/evm/txmgr/evm_tx_store.go:992-1054 | Sent: broadcast. Out of funds: marked so. Sequence used before: broadcast, and the transaction is missing its receipt. Rejected: gone. All else of the row stays, nothing is left in_progress, the time of its last broadcast is not before the sending, and it fails exactly if the call does |
| `ConfirmerStore.ConfirmerStore.FindTxsRequiringResubmissionDueToInsufficientFunds` | lib/chainlink/core/chains/evm/txmgr/evm_tx_store.go:1120-1139 | Exactly the unconfirmed transactions of the key with an attempt that ran out of funds, by sequence |
| `ConfirmerStore.ConfirmerStore.FindTxsRequiringGasBump` | lib/chainlink/core/chains/evm/txmgr/evm_tx_store.go:1092-1115 | Exactly the unconfirmed transactions of the key that are due for a bump by threshold and depth, by sequence |
| `ConfirmerStore.ConfirmerStore.FindTransactionsConfirmedInBlockRange` | lib/chainlink/core/chains/evm/txmgr/evm_tx_store.go:968-990 | Exactly the transactions with a receipt in the block range, with all their attempts, by sequence; an error means that the call failed |
| `ConfirmerStore.ConfirmerStore.UpdateTxForRebroadcast` | lib/chainlink/core/chains/evm/txmgr/evm_tx_store.go:930-966 | Unconfirmed with its old sequence and without receipts, the attempt in_progress and without a stamp, the others with state, price and stamp as before; refused exactly when the transaction was not loaded as confirmed or its attempt not as broadcast, and otherwise it fails exactly if the call does |
| `ConfirmerStore.ConfirmerStore.SetBroadcastBeforeBlockNum` | lib/chainlink/core/chains/evm/txmgr/evm_tx_store.go:689-699 | Stamps exactly the broadcast attempts that have no number yet |
| `ConfirmerStore.ConfirmerStore.FindTxAttemptsRequiringReceiptFetch` | lib/chainlink/core/chains/evm/txmgr/evm_tx_store.go:726-743 | Exactly the attempts that may have been mined, by sequence and the dearest first |
| `ConfirmerStore.ConfirmerStore.FindTxAttemptsConfirmedMissingReceipt` | lib/chainlink/core/chains/evm/txmgr/evm_tx_store.go:701-715 | The dearest attempt of every transaction that misses its receipt, each once |
| `ConfirmerStore.ConfirmerStore.UpdateTxsUnconfirmed` | lib/chainlink/core/chains/evm/txmgr/evm_tx_store.go:717-724 | Exactly the listed transactions become unconfirmed |
| `ConfirmerStore.ConfirmerStore.SaveFetchedReceipts` | lib/chainlink/core/chains/evm/txmgr/evm_tx_store.go:745-824 | Exactly the transactions with a receipt become confirmed, and their attempt is broadcast, has the receipt and a stamp |
| `ConfirmerStore.ConfirmerStore.MarkAllConfirmedMissingReceipt` | lib/chainlink/core/chains/evm/txmgr/evm_tx_store.go:846-872 | Exactly the unconfirmed transactions below a confirmed sequence of their key are marked |
| `ConfirmerStore.ConfirmerStore.MarkOldTxesMissingReceiptAsErrored` | lib/chainlink/core/chains/evm/txmgr/evm_tx_store.go:1148-1237 | Exactly the transactions that missed their receipt for the finality depth fail |
| `ConfirmerLaws.ResubmittedIffOutOfFunds` | lib/chainlink/core/chains/evm/txmgr/evm_tx_store.go:1120-1139 | After an answer an unconfirmed transaction is found for resubmission if and only if the answer was insufficient funds or another of its attempts had run out of them |
| `ConfirmerLaws.AskedAboutIffTaken` | lib/chainlink/core/chains/evm/txmgr/evm_tx_store.go:726-743 | After an answer the receipt of the attempt that was sent is asked for if and only if the node took it; of the other attempts nothing changes in this respect |
| `ConfirmerLaws.ReorgedIsLeftOver` | lib/chainlink/core/chains/evm/txmgr/evm_tx_store.go:930-966 | A re-orged transaction is unconfirmed with its sequence and without receipts; its dearest attempt is a leftover of its key, to be stamped anew; the others keep state, price and stamp; it is not re-orged a second time |
| `ConfirmerLaws.ResentAwaitsReceipt` | lib/chainlink/common/txmgr/confirmer.go:884-891 | Once a re-orged transaction was taken again its receipt is asked for again |
| `ConfirmerLaws.ReorgedIsSentAgain` | lib/chainlink/common/txmgr/confirmer.go:277-321 | A head that ends without an error and before its deadline sends every re-orged transaction of an enabled key again, with the attempt that was the dearest, in the round of that key after the marking, unless its row was deleted by then |
| `ConfirmerLaws.ReceiptIsFound` | lib/chainlink/core/chains/evm/txmgr/evm_tx_store.go:968-990 | A transaction that got a receipt is confirmed and found by every range that covers its block |
| `ConfirmerLaws.OtherBlocksAreNotFound` | lib/chainlink/core/chains/evm/txmgr/evm_tx_store.go:968-990 | A transaction with receipts from other blocks only is not found |
| `ConfirmerLaws.BumpIsDueFrom` | lib/chainlink/core/chains/evm/txmgr/evm_tx_store.go:1092-1115 | Without a depth, a transaction is due for a bump if and only if all its attempts are out and stamped, and the latest stamp lies at least the threshold back |
| `ConfirmerLaws.StampedIsDueLater` | lib/chainlink/core/chains/evm/txmgr/evm_tx_store.go:689-699 | What was stamped last with this block is due the threshold later, and not before |
| `ConfirmerLaws.FirstOnesAreDue` | lib/chainlink/core/chains/evm/txmgr/evm_tx_store.go:1092-1115 | With a depth, those that are due are the first, by sequence, of those that would be due without it |
| `ConfirmerLaws.AtMostDepthAreDue` | lib/chainlink/core/chains/evm/txmgr/evm_tx_store.go:1092-1115 | With a depth, no more transactions than that are due at a time |
| `ConfirmerReceipts.ExpiredIffMissedSince` | lib/chainlink/core/chains/evm/txmgr/evm_tx_store.go:1148-1237 | The query finds a transaction if and only if it misses its receipt and its latest stamp lies before the cutoff |
| `Confirmer.Confirmer.HandleInProgressAttempt` | lib/chainlink/common/txmgr/confirmer.go:811-899 | The whole course of one call: the attempts sent in turn, each but the first in place of the one before, which the node called underpriced, at the price that the fee arithmetic accepts on the estimate. Without an error the last one is settled as the answer says: broadcast if the node has it, out of funds, or gone if rejected for good; the transaction misses its receipt if its sequence was used before; the other attempts stay. An error is a failed store call, a bump that is not to be had, a deleted transaction or the code the node gave |
| `Confirmer.Confirmer.ReplaceUnderpriced` | lib/chainlink/common/txmgr/confirmer.go:821-856 | The same from an underpriced answer on. Only the dearest attempt is bumped and replaced, and the one that was sent is never another: that assumption of the source is not violated; the room under the cap is the termination measure |
| `Confirmer.Confirmer.HandleAnyInProgressAttempts` | lib/chainlink/common/txmgr/confirmer.go:667-683 | Without an error and unless cancelled, at a store call or while the node is asked, every attempt of the key that was left in_progress was sent, as for HandleInProgressAttempt, none is left and no other transaction was written; every error has a cause; a cancelled context asks nothing |
| `Confirmer.Confirmer.FewReplacements` | lib/chainlink/common/txmgr/confirmer.go:821-856 | An attempt is replaced at most (cap - fee) / bumpMin times in one call, and the last replacement is dearer and within the cap |
| `Confirmer.Confirmer.FindTxsRequiringRebroadcast` | lib/chainlink/common/txmgr/confirmer.go:687-745 | What is due is the merge of the two queries, each transaction with its attempts as they are; an error is a failed store call and like a cancelled context yields nothing |
| `RebroadcastQueue.MergeForRebroadcast` | lib/chainlink/common/txmgr/confirmer.go:722-744 | Duplicate-free, sorted by sequence, all of the union or exactly the limit-many lowest of it; where both lists hold a transaction the insufficient-funds entry wins |
| `RebroadcastQueue.SortBySequence` | lib/chainlink/common/txmgr/confirmer.go:735-737 | A sorted permutation |
| `Confirmer.Confirmer.AttemptForRebroadcast` | lib/chainlink/common/txmgr/confirmer.go:747-774 | Out of funds: the same attempt again. Bump refused: the same attempt, to be stamped anew. Otherwise the attempt at the price that the fee arithmetic accepts. No attempts: an invariant violation, exactly then. A failed build or connection: that error |
| `Confirmer.Confirmer.Rebroadcast` | lib/chainlink/common/txmgr/confirmer.go:641-656 | The attempt that is next is saved before it is sent, and the row is what the answers made of it, with a dearer attempt in place of an underpriced one; an invariant violation exactly when the transaction has no attempts; every other error has a cause |
| `Confirmer.Confirmer.RebroadcastWhereNecessary` | lib/chainlink/common/txmgr/confirmer.go:629-658 | Without an error and unless cancelled: the leftovers of the key were sent first and none is left, every transaction that was due was sent again with the outcome in its row, and no other was written; an invariant violation is reported only for one without attempts, and every other error has a cause; a cancelled context asks nothing |
| `Confirmer.Confirmer.BareIsDue` | lib/chainlink/core/chains/evm/txmgr/evm_tx_store.go:1092-1115 | An unconfirmed transaction without attempts is due for a bump exactly when it is within the depth |
| `Confirmer.Confirmer.BareStopsTheKey` | lib/chainlink/common/txmgr/confirmer.go:641-656 | The rebroadcasts of a key get past a due transaction without attempts only when the limit is used up by transactions with sequences up to its own |
| `Confirmer.Confirmer.RebroadcastAll` | lib/chainlink/common/txmgr/confirmer.go:603-627 | Every enabled key has its round, whatever the others end in: one result for each key, and what is reported are exactly the errors among them, none without a cause. Unless cancelled a key without an error has no leftovers at the end and sent all that was due; a key with one wrote rows of its own only |
| `Confirmer.Confirmer.InTurnAt` | lib/chainlink/common/txmgr/confirmer.go:603-627 | The round of each key starts where that of the key before ended and achieved what is promised for one key |
| `Confirmer.Confirmer.OtherKeysCallIsHarmless` | lib/chainlink/common/txmgr/confirmer.go:603-627 | A write to a row of another key, at any moment, keeps all that the goroutine of a key knows: what it still has to send, what is still due and that nothing is left over |
| `ConfirmerReorg.HasReceiptInLongestChain` | lib/chainlink/common/txmgr/confirmer.go:961-981 | True if and only if some receipt of some attempt matches hash and number of some block on the chain |
| `Confirmer.Confirmer.CheckForReorg` | lib/chainlink/common/txmgr/confirmer.go:929-935 | A transaction is left alone if a receipt is on the chain and marked with its first attempt otherwise; when that fails and why |
| `Confirmer.Confirmer.MarkForRebroadcast` | lib/chainlink/common/txmgr/confirmer.go:983-1020 | Marks with the dearest attempt; no attempts is an invariant violation, exactly then; one that is not confirmed or whose dearest attempt is not broadcast is refused, exactly then; any other error is a failed store call |
| `Confirmer.Confirmer.MarkReorged` | lib/chainlink/common/txmgr/confirmer.go:924-936 | While the store does not fail, the phase succeeds exactly when no re-orged transaction is missing its receipt or has a dearest attempt that is not broadcast. On success exactly the transactions confirmed in the range of the chain and by no block on it are unconfirmed, without receipts and with the dearest attempt to be sent again, and no other row is written; on an error only rows that had to be marked were |
| `Confirmer.Confirmer.EnsureConfirmedTransactionsInLongestChain` | lib/chainlink/common/txmgr/confirmer.go:908-959 | How the marking ends and what it leaves, as for MarkReorged; after a successful marking and unless cancelled every enabled key has its leftovers sent, one key after the other, and a key without an error has none left; the counter of short chains is kept |
| `Confirmer.Confirmer.CheckConfirmedMissingReceipt` | lib/chainlink/common/txmgr/confirmer.go:342-378 | Exactly the transactions that miss their receipt are sent again, each with its dearest attempt, and exactly those go back to unconfirmed for which the client reports anything but an error that the node already has them; an error of the phase means that nothing was written |
| `Confirmer.Confirmer.FailedBatchSendsAllBack` | lib/chainlink/core/chains/evm/txmgr/client.go:43-70 | A batch that fails as a whole reports an empty entry for every transaction, so all of them go back to unconfirmed although the node answered nothing |
| `ConfirmerReceipts.SeparateLikelyConfirmedAttempts` | lib/chainlink/common/txmgr/confirmer.go:434-468 | The longest prefix with sequences up to the mined count; for sorted attempts exactly those attempts |
| `ConfirmerReceipts.CommentExampleKeepsOneMore` | lib/chainlink/common/txmgr/confirmer.go:450-459 | On the example of the comment the code keeps one attempt more than the comment says |
| `ConfirmerReceipts.KeepReceipts` | lib/chainlink/common/txmgr/confirmer.go:529-600 | The loop over the answers keeps those that pass every check, in order |
| `ConfirmerReceipts.KeptIsAnswer` | lib/chainlink/common/txmgr/confirmer.go:529-600 | Whatever is kept is mined, has a block number and carries the hash of the attempt it is the answer to |
| `ConfirmerReceipts.AnswerIsKept` | lib/chainlink/common/txmgr/confirmer.go:529-600 | No answer that passes the checks is lost |
| `Confirmer.Confirmer.BatchIsAnswered` | lib/chainlink/common/txmgr/confirmer.go:470-503 | One question asks about the attempts from i up to j, and its answers are the ones the attempts get by their place among all |
| `Confirmer.Confirmer.BatchFetchReceipts` | lib/chainlink/common/txmgr/confirmer.go:511-600 | The receipts of a batch are exactly the kept answers to the question asked for it |
| `Confirmer.Confirmer.FetchAndSaveReceipts` | lib/chainlink/common/txmgr/confirmer.go:470-503 | For every batch size including 0, each attempt is asked about once, number n in batch n / size at place n mod size; exactly the kept answers are saved, up to the batch that failed if one did, and exactly the transactions with one become confirmed |
| `Confirmer.Confirmer.FetchForAddress` | lib/chainlink/common/txmgr/confirmer.go:398-425 | For one key the node is asked exactly about the attempts up to its mined count, and the receipts saved are exactly those of the answers that pass the checks |
| `Confirmer.Confirmer.CheckForReceipts` | lib/chainlink/common/txmgr/confirmer.go:381-432 | A finished round asked about exactly the attempts within the mined counts, saved exactly the kept answers about them, left no unconfirmed transaction before a confirmed one of its key and failed exactly those whose latest stamp is older than the finality depth; one that ends early leaves the kept answers it had saved, and the marks if it came that far; every error has a cause |
| `Confirmer.Confirmer.ProcessHead` | lib/chainlink/common/txmgr/confirmer.go:277-321 | Under a timeout of its own, after which nothing is asked any more: the phases that ended without an error did their part in order, and the one that ended early left what it had written before its error; every error is a bare transaction, a refused re-orged one, a failed store call or an answer; unless cancelled every enabled key had its round, and none has leftovers after the rebroadcasts and at the end |
| `Confirmer.Confirmer.RunLoop` | lib/chainlink/common/txmgr/confirmer.go:245-267 | Head after head is served, as for ProcessHead and from what the one before left, and heads are left out only after cancellation; over any heads, errors and timeouts no state committed or seen has a transaction with two in_progress attempts |
| `Broadcaster.Broadcaster.MonitorTxs` | lib/chainlink/common/txmgr/broadcaster.go:331-391 | The loop of one monitor: it goes on until cancelled, everything it committed belongs to one run, after a last round without an error nothing is left to do, and an error has a cause |
| `TxmLoop.EveryRunIsSafe` | lib/chainlink/common/txmgr/txmgr.go:202-253 | In every state of every run: both services are started at the head of the loop unless stopped; a reset callback runs only while both are down and none of their goroutines lives; whoever is told that the reset is done has had its callback run, once, and nobody else has; no two monitors of one address; no Panicw branch is reached; Close returns nil only when the loop is gone, and then nobody is left waiting |
| `TxmLoop.LogIsTrue` | lib/chainlink/common/txmgr/txmgr.go:299-302 | The log of callbacks holds exactly those that steps of the loop ran, in that order; with EveryRunIsSafe: a Reset caller is told to be done if and only if exactly one step ran its callback |
| `TxmLoop.EveryResetRestarts` | lib/chainlink/common/txmgr/txmgr.go:275-345 | Every reset and every change of keys that the loop takes up restarts both services once: back at its head, unless stopped, both have that many starts behind them, with one goroutine for each address that was read last and no other |
| `TxmLoop.ResetIsTakenUp` | lib/chainlink/common/txmgr/txmgr.go:202-219 | A Reset call gets in while the service is started, and the loop can take it up whenever it is at its head |
| `TxmLoop.AnswerIsReachable` | lib/chainlink/common/txmgr/txmgr.go:275-345 | A Reset call that was taken up can always be answered, by steps of the loop, the workers and the starters alone |
| `TxmLoop.AlwaysCloser` | lib/chainlink/common/txmgr/txmgr.go:275-408 | While the loop is busy with a reset, or the stop channel is closed and the loop not gone, the loop, a worker it waits for or a starter can take a step that brings the end closer |
| `TxmLoop.ExitIsReachable` | lib/chainlink/common/txmgr/txmgr.go:275-408 | From every reachable state with a closed stop channel these steps alone lead to the end of the loop |
| `TxmLoop.StepKeepsInv` | lib/chainlink/common/txmgr/txmgr.go:275-408 | Every step of the loop, the restarting goroutines, the callers, the workers and Close keeps the invariant |
| `TxmLoop.LoopServes` | lib/chainlink/common/txmgr/txmgr.go:292-345 | A Reset caller waits for its answer exactly while the loop is busy with its reset |
| `StartStopOnce.EveryRunIsSafe` | lib/chainlink/core/utils/utils.go:884-972 | Over every interleaving of any number of calls: the start function runs at most once, the stop function at most once and only after a start that returned nil, the state is Started throughout an IfStarted body, and neither panic is reached |
| `StartStopOnce.StepKeepsInv` | lib/chainlink/core/utils/utils.go:884-972 | Every atomic step keeps the lock exclusive and state, log and program counters in agreement |
| `StartStopOnce.GoesThroughWhenDue` | lib/chainlink/core/utils/utils.go:884-972 | A start of an unstarted service, and a stop or an IfStarted body of a started one, go through, and only those; only calls whose function ran report how it ended |
| `StartStopOnce.TellsHowItEnded` | lib/chainlink/core/utils/utils.go:884-940 | A start or stop that ran its function tells the caller how that ended, and the state says the same |
| `StartStopOnce.StopOvertakesStart` | lib/chainlink/core/utils/utils.go:916-937 | A stop that takes the lock between the compare-and-swap of the start and its lock is turned away without a trace, in three steps |
| `StartStopOnce.EnsureClosedFailsIff` | lib/chainlink/core/utils/utils.go:1009-1015 | Once the compare-and-swap of a stop has failed, the close is reported as an error exactly when the load that follows finds StartFailed, StopFailed or Starting |
| `StartStopOnce.StartSlipsIn` | lib/chainlink/core/utils/utils.go:923-934 | A start between the two turns the close of an unstarted service, which would be fine, into an error |
| `Mailbox.Mailbox.Deliver` | lib/chainlink/core/utils/mailbox.go:69-87 | The queue is the newest `capacity` of the old queue and the item; it reports an overflow exactly when the oldest was dropped; the notification is set |
| `Mailbox.Mailbox.Retrieve` | lib/chainlink/core/utils/mailbox.go:89-101 | The oldest item, or nothing if and only if the queue is empty |
| `Mailbox.Mailbox.RetrieveAll` | lib/chainlink/core/utils/mailbox.go:103-114 | All items in the order of delivery, and the queue is empty |
| `Mailbox.OldestFirst` | lib/chainlink/core/utils/mailbox.go:108-112 | The in-place loop reverses the slice |
| `Mailbox.Mailbox.RetrieveLatestAndClear` | lib/chainlink/core/utils/mailbox.go:116-126 | The newest item, the others are cleared |
| `Mailbox.FatesPartition` | lib/chainlink/core/utils/mailbox.go:69-126 | Everything delivered was retrieved, dropped or cleared or is still queued, counted exactly |
| `Mailbox.NoLostWakeUp` | lib/chainlink/common/txmgr/confirmer.go:245-267 | Whenever the consumer waits and the queue is not empty, the notification is there |
| `BoundedQueues.KeptAfterAdd` | lib/chainlink/core/utils/utils.go:531-539 | An addition pushes out the oldest item exactly when the queue is full |
| `BoundedQueues.BoundedQueue.Add` | lib/chainlink/core/utils/utils.go:531-539 | The queue holds the newest `capacity` of everything added that came after the last item taken |
| `BoundedQueues.BoundedQueue.Take` | lib/chainlink/core/utils/utils.go:542-551 | The oldest item, or the zero value and no change |
| `BoundedQueues.BoundedQueue.FullIffAddEvicts` | lib/chainlink/core/utils/utils.go:561-565 | Full says exactly whether the next addition pushes an item out |
| `BoundedQueues.SortPriorities` | lib/chainlink/core/utils/utils.go:577-591 | The priorities in ascending order |
| `BoundedQueues.BoundedPriorityQueue.Add` | lib/chainlink/core/utils/utils.go:594-604 | Adds to one sub-queue only; an unknown priority panics, exactly then |
| `BoundedQueues.BoundedPriorityQueue.Take` | lib/chainlink/core/utils/utils.go:607-619 | The oldest item of the smallest non-empty priority, and no other sub-queue changes |
| `BoundedQueues.BoundedPriorityQueue.Empty` | lib/chainlink/core/utils/utils.go:623-634 | True if and only if all sub-queues are empty |
| `HeadPipeline.EveryRunIsOrdered` | lib/chainlink/common/headtracker/head_tracker.go:194-274 | For every interleaving, with or without sampling and with any drops, what was executed and what is on its way are accepted heads in strictly increasing order that end in the newest accepted one |
| `HeadPipeline.AcceptsExactlyTheRecords` | lib/chainlink/common/headtracker/head_tracker.go:194-235 | In every run in which saving does not fail, nothing is cancelled, no chain is missing and the backfiller saves nothing above what arrived, exactly the heads above everything before them, and above what was loaded, are accepted |
| `HeadPipeline.HigherHeadIsAccepted` | lib/chainlink/common/headtracker/head_tracker.go:194-215 | Whatever else goes wrong, a head that was saved with a number above the highest saved one at its receipt is accepted, about to be, or its chain was missing |
| `HeadPipeline.NewestArrives` | lib/chainlink/common/headtracker/head_tracker.go:237-274 | The newest accepted head is the last one executed, or still queued or in hand; a queued head is always announced |
| `HeadPipeline.SubscriberSeesContiguousRun` | lib/chainlink/common/headtracker/head_broadcaster.go:92-163 | The head returned by Subscribe and the callback heads are a contiguous run of the executed heads, strictly increasing and accepted, and up to date while subscribed |
| `HeadPipeline.UnsubscribeKeepsInv` | lib/chainlink/common/headtracker/head_broadcaster.go:101-106 | Unsubscribing one callback never removes another |
| `HeadPipeline.SubscribeKeepsInv` | lib/chainlink/common/headtracker/head_broadcaster.go:92-100 | A new subscription gets an identifier that was never used and starts right after the latest head |
| `HeadPipeline.SnapshotKeepsInv` | lib/chainlink/common/headtracker/head_broadcaster.go:133-136 | Remembering the head and copying the callbacks in one critical section leaves no gap between subscription and callbacks |
| `HeadPipeline.ListenerStepKeepsInv` | lib/chainlink/common/headtracker/head_tracker.go:194-215 | A head is accepted only above everything accepted before, whatever the backfiller saves meanwhile |
| `HeadPipeline.StepKeepsInv` | lib/chainlink/common/headtracker/head_tracker.go:194-274 | Every step of every party keeps the invariant |
| `Backfill.BaseHeightIsExactIff` | lib/chainlink/common/headtracker/head_tracker.go:164-174 | The 64-bit arithmetic of the base height is exact if and only if depth - 1 <= number + 2^63 |
| `Backfill.AbsurdDepthExample` | lib/chainlink/common/headtracker/head_tracker.go:164-174 | With the largest depth the base lies above the head |
| `Backfill.HeadTracker.Backfill` | lib/chainlink/common/headtracker/head_tracker.go:164-175 | Without an error and not cancelled, a linked path of saved heads runs from the head down to max(0, n - (depth - 1)); only missing heads on that path are fetched, each once; depth 0 and long chains do nothing; an error is a failed fetch or a failed save |
| `Backfill.HeadTracker.BackfillFrom` | lib/chainlink/common/headtracker/head_tracker.go:306-346 | The same from the earliest linked head: each parent is taken from the saver or, exactly if missing there, from the node |
| `Backfill.HeadTracker.FetchAndSaveHead` | lib/chainlink/common/headtracker/head_tracker.go:348-361 | The head with the asked hash is saved; the error is that of the fetch, a nil head or that of the save, exactly when there is one |
| `WeiText.TextRoundTrip` | lib/chainlink/core/assets/wei.go:84-216 | UnmarshalText inverts Text for every integer amount and every unit, known or not |
| `WeiText.StringRoundTrip` | lib/chainlink/core/assets/wei.go:136-216 | UnmarshalText inverts String for every integer amount |
| `WeiText.SuffixIsUnambiguous` | lib/chainlink/core/assets/wei.go:174-186 | No unit that is tried earlier matches text printed with a later one, whatever the number |
| `WeiText.ScalingIsExact` | lib/chainlink/core/assets/wei.go:187-204 | Scaling a printed amount back up loses nothing on either branch |
| `WeiText.PrintedIsParsed` | lib/chainlink/core/assets/wei.go:114-121 | Parsing a printed decimal gives the same amount: only zeros are trimmed |
| `WeiText.TablesAgree` | lib/chainlink/core/assets/wei.go:32-112 | The two tables of units agree, and an unknown unit means wei |
| `WeiText.StringUsesLargestUnit` | lib/chainlink/core/assets/wei.go:136-172 | String picks the largest unit of which a positive amount has at least one |
| `WeiText.Wei.UnmarshalText` | lib/chainlink/core/assets/wei.go:174-216 | The loop computes what the specification of parsing says, and the amount is overwritten only on success |
| `WeiText.ParsesExactly` | lib/chainlink/core/assets/wei.go:174-204 | A text that ends in a unit is read as exactly the amount it states in the longest unit it ends in, and fails when that is no number or no whole number of wei: nothing is rounded |
| `WeiText.ParsesBareExactly` | lib/chainlink/core/assets/wei.go:205-216 | A text without a unit is read as exactly the number of wei it states, and fails when that is no whole number |
| `EvmWords.EVMEncodeBytes` | lib/chainlink/core/utils/ethabi.go:71-77 | Decoding gives the input back, the length is 32 + 32 * ceil(len / 32), and no other bytes decode to the input |
| `EvmWords.RoundToEVMWordBorder` | lib/chainlink/core/utils/ethabi.go:62-68 | The least padding to the next word border |
| `EvmWords.EVMWordUint64` | lib/chainlink/core/utils/ethabi.go:181-185 | A 32-byte word with the value in the last eight bytes |
| `EvmWords.EVMBytesToUint64` | lib/chainlink/core/utils/utils.go:814-820 | The big-endian value modulo 2^64 |
| `EvmWords.Uint64RoundTrip` | lib/chainlink/core/utils/utils.go:814-820 | EVMBytesToUint64 inverts EVMWordUint64 |
| `EvmWords.EVMWordUint128` | lib/chainlink/core/utils/ethabi.go:195-203 | A word exactly for the values from 0 to 2^128 - 1, and the value can be read back; an overflow exactly from 2^128 on in absolute value, also for negative values |
| `EvmWords.EVMWordBigInt` | lib/chainlink/core/utils/ethabi.go:221-230 | A word exactly for the values of a uint256, and the value can be read back |
| `EvmWords.EVMWordSignedBigInt` | lib/chainlink/core/utils/ethabi.go:207-217 | A word exactly for the values in [MinInt256, MaxInt256], and two's complement decoding returns the value |
| `EvmWords.SignedDecodesOneMore` | lib/chainlink/core/utils/ethabi.go:250-272 | Every word but that of -2^255 is the encoding of the value it decodes to; MinInt256 as defined in the file refuses that one value |

## Left out

- EIP-1559 fees: a fee is one totally ordered price; the two-part fees of dynamic transactions and their estimators are not modelled.
- Times: what depends on the age of a broadcast, the queries of the resender and backoff delays, is not modelled; UpdateBroadcastAts is a step of the others, also where the Confirmer calls it.
- SequenceSyncer and ForceRebroadcast: the first has no body in the source, the second is declared orthogonal to the Confirmer.
- ProcessHead: ResumePendingTaskRuns is left out, pipeline callbacks after the last phase that write no state modelled here.
- MonitorTxs: the synchronisation of the sequence before the loop is left out, because SequenceSyncer has no body in the source.
- Unique indexes and foreign keys of the database: not relied upon, except that inserting an attempt of a deleted transaction fails.
- UpdateTxUnstartedToInProgress: does not model the deletion of an abandoned attempt with the same hash, because transaction hashes are arbitrary here.
- RebroadcastAll: the goroutines per key, of EnsureConfirmedTransactionsInLongestChain too, run one after the other, because a call of another key's goroutine changes nothing that a goroutine relies on (OtherKeysCallIsHarmless).
- Deletion of keys: a key that is deleted or disabled stays known to the keystore here; nothing is claimed about its rows.
- SaveFetchedReceipts: confirms any transaction with the hash in the source; here one in the care of the Confirmer, because receipts are fetched for those only and a hash belongs to one attempt.
- Endless loops: processUnstartedTxs waiting for room and re-estimation on fee out of range are bounded by a number of rounds after which the process is killed, because nothing in the source bounds them; liveness is not claimed.
- Forwarders, receipt status and revert reasons: metrics and logging only.
- Txm start-up: the run begins inside Start and Start is assumed to return nil; a forwarder manager that fails to start closes the services under a running loop.
- Txm triggers and heads: what the loop passes on to the services on a trigger or a head is not modelled there, only that it stays in its loop.
- IfNotStopped, Ready and Healthy of StartStopOnce: read-only.
- HeadSaver: heads are never trimmed, as in its interface; the persistence behind it is not modelled.
- Monitoring of mailboxes and the finality-depth warnings of the head tracker: metrics.
- Decimal library: taken by its documented text format; formats it never prints are parsed as documented, without limits on the length of the mantissa.
- Negative capacities of the bounded queues: the source panics on the first addition.
- ABI encoding through go-ethereum, JSON transcoding and EVMWordUint32: foreign or the same as the 64-bit case.
- AbandonKeepsInv: states what abandon does to the database only; the error that Reset returns for it is overwritten in the source and no claim is made about it.
