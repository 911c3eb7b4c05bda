/** Runs of the Confirmer into the two states that its source does not expect: a
    re-orged transaction that cannot be marked, and an unconfirmed transaction
    without attempts. */
module ConfirmerExamples {
  import opened Options
  import opened TxTypes
  import opened ConfirmerRows
  import opened ConfirmerRuns
  import opened ConfirmerReorg

  /** One transaction of key 0 with sequence 0, handed over with attempt 1. */
  function HandedOver(): Db {
    var first := Attempt(1, 1, 100, 10, 2, AttemptBroadcast, None, []);
    var tx := Tx(1, 0, 0, 0, Unconfirmed, Some(0), map[1 := first], Some(0), Some(0), false);
    Db(map[1 := tx], 1, 1, map[0 := 1], map[0 := [0]])
  }

  lemma HandedOverIsOk()
    ensures StateOk(HandedOver())
    ensures InCare(HandedOver(), 1) && NoneUnsent(HandedOver().txs[1]) && !Bare(HandedOver().txs[1])
    ensures IsDearest(HandedOver().txs[1], 1)
  {
    assert RowOk(HandedOver(), 1);
    assert 1 in HandedOver().txs[1].attempts;
  }

  lemma OneMoreCall(t: ConfirmerTrace, c: OwnCall) returns (u: ConfirmerTrace)
    requires ConfirmerRun(t) && OwnGuard(c, t.Last())
    ensures ConfirmerRun(u) && u == t.Then(Mine(c), OwnEffect(c, t.Last()))
  {
    u := t.Then(Mine(c), OwnEffect(c, t.Last()));
    ConfirmerRunThen(t, Mine(c), OwnEffect(c, t.Last()));
  }

  /** The attempt of a bump is left in_progress, and the first attempt is mined. */
  lemma BumpedAndMined() returns (t: ConfirmerTrace)
    ensures ConfirmerRun(t) && t.states[0] == HandedOver() && forall i :: 0 <= i < |t.events| ==> t.events[i].Mine?
    ensures 1 in t.Last().txs && t.Last().txs[1].state.Confirmed?
    ensures var attempts := t.Last().txs[1].attempts;
            && attempts.Keys == {1, 2}
            && attempts[1].state.AttemptBroadcast? && attempts[1].receipts == [Receipt(100, 50, 5)]
            && attempts[2].state.AttemptInProgress? && attempts[2].receipts == []
  {
    HandedOverIsOk();
    t := ConfirmerTrace([HandedOver()], []);
    assert t.Last() == HandedOver();
    t := OneMoreCall(t, InsertAttempt(1, Attempt(0, 1, 101, 20, 2, AttemptInProgress, None, [])));
    var bumped := t.Last().txs[1];
    assert ReceiptFor(bumped.attempts[1].txHash, [Receipt(100, 50, 5)]).Some?;
    t := OneMoreCall(t, Receive([Receipt(100, 50, 5)]));
    assert t.Last().txs[1] == ReceivedRow(bumped, [Receipt(100, 50, 5)]);
  }

  /** Then the leftover is sent and the node answers that it already knows the
      transaction: the row is missing its receipt although it has one. When the chain
      is re-orged afterwards, the row has to be marked and the store refuses. */
  lemma UnmarkableIsReached() returns (t: ConfirmerTrace, chain: seq<Block>)
    ensures ConfirmerRun(t) && t.states[0] == HandedOver() && forall i :: 0 <= i < |t.events| ==> t.events[i].Mine?
    ensures |chain| == 1 && SomeRefused(t.Last(), chain)
  {
    t := BumpedAndMined();
    chain := [Block(5, 51, 40)];
    var row := t.Last().txs[1];
    t := OneMoreCall(t, OwnCall.FinishAttempt(1, 2, MissingReceipt, 0));
    MissingButReceived(row, t.Last().txs[1], chain);
  }

  lemma MissingButReceived(row: Tx, row': Tx, chain: seq<Block>)
    requires row.attempts.Keys == {1, 2} && row.attempts[1].receipts == [Receipt(100, 50, 5)] && row.attempts[2].receipts == []
    requires row.attempts[1].state.AttemptBroadcast? && row' == FinishedRow(row, 2, MissingReceipt, 0)
    requires chain == [Block(5, 51, 40)]
    ensures Reorged(row', chain) && Unmarkable(row')
  {
    assert row'.attempts.Keys == {1, 2} && row'.attempts[1] == row.attempts[1] && row'.attempts[2].receipts == [];
    assert row'.attempts[1].receipts[0].blockNumber == 5;
    assert ConfirmedInRange(row', 5, 5);
  }

  /** The only attempt is sent again, for instance because the fee is at its cap, and the
      node rejects it for good. */
  lemma LostIsReached() returns (t: ConfirmerTrace)
    ensures ConfirmerRun(t) && t.states[0] == HandedOver() && forall i :: 0 <= i < |t.events| ==> t.events[i].Mine?
    ensures Lost(t.Last(), 1) && InState(t.Last(), 0, Unconfirmed, 1)
  {
    HandedOverIsOk();
    t := ConfirmerTrace([HandedOver()], []);
    assert t.Last() == HandedOver();
    t := OneMoreCall(t, ResendAttempt(1, 1, None));
    t := OneMoreCall(t, OwnCall.FinishAttempt(1, 1, Deleted, 0));
  }
}
