/** Broadcasters of all keys, the Confirmer and everybody else on one database: their
    store calls in any order, and what holds in every state they reach. This is where
    the conditions that the two sides rely on meet the steps that are really made. */
module JointRuns {
  import opened Options
  import opened TxTypes
  import opened BroadcasterProtocol
  import opened ConfirmerProtocol
  import opened ConfirmerRuns

  datatype JointEvent =
    | Broadcasts(key: Addr, call: Call)
    | Confirms(own: OwnCall)
    | Creates(owner: Addr, value: int, createdAt: int)
    | Deletes(ids: set<int>)
    | Touches(ids: set<int>, now: int)
    | AddsKey(key: Addr)
    | Resets(key: Addr, next: Option<int>, abandon: bool)

  datatype JointTrace = JointTrace(states: seq<Db>, events: seq<JointEvent>)

  ghost predicate JointStep(e: JointEvent, d: Db, d': Db) {
    match e
    case Broadcasts(key, c) => Guard(key, c, d) && d' == Effect(key, c, d)
    case Confirms(c) => OwnGuard(c, d) && d' == OwnEffect(c, d)
    case Creates(owner, value, createdAt) => Enqueue(d, d', owner, value, createdAt)
    case Deletes(ids) => Delete(d, d', ids)
    case Touches(ids, now) => Touch(d, d', ids, now)
    case AddsKey(key) => AddKey(d, d', key)
    case Resets(key, n, abandon) => key in d.next && ResetFits(d, key, n, abandon) && d' == Reset(d, key, n, abandon)
  }

  ghost predicate JointStepAt(t: JointTrace, i: nat)
    requires |t.states| == |t.events| + 1 && i < |t.events|
  {
    JointStep(t.events[i], t.states[i], t.states[i + 1])
  }

  ghost predicate JointRun(t: JointTrace) {
    && |t.states| == |t.events| + 1
    && StateOk(t.states[0])
    && forall i :: 0 <= i < |t.events| ==> JointStepAt(t, i)
  }

  // ------------------------------------------------------- every state is safe

  lemma JointStepKeepsState(e: JointEvent, d: Db, d': Db)
    requires StateOk(d) && JointStep(e, d, d')
    ensures StateOk(d')
  {
    match e
    case Broadcasts(key, c) => BroadcasterStepIsHarmless(key, c, d);
    case Confirms(c) => OwnCallKeepsState(c, d, 0);
    case Creates(owner, value, createdAt) => EnqueueKeepsInv(d, d', owner, value, createdAt);
    case Deletes(ids) => DeleteIsHarmless(d, d', ids, 0);
    case Touches(ids, now) => TouchKeepsInv(d, d', ids, now);
    case AddsKey(key) => AddKeyIsHarmless(d, d', key, key);
    case Resets(key, n, abandon) => ResetKeepsInvIff(d, key, n, abandon);
  }

  /** Main theorem: however the Broadcasters, the Confirmer and the others interleave, in
      every state no transaction has two in_progress attempts and the guarantee of the
      Broadcaster holds for every key. Not even a reset breaks this, as long as a counter
      it sets fits; ResetKeepsInvIff says that no other would. */
  lemma {:induction false} JointRunGuarantee(t: JointTrace, n: nat)
    requires JointRun(t) && n < |t.states|
    ensures StateOk(t.states[n])
    ensures forall id :: id in t.states[n].txs ==> AtMostOneUnsent(t.states[n].txs[id])
    ensures forall key :: key in t.states[n].next ==> KeyKnown(key, t.states[n]) && KeyGuarantee(t.states[n], key)
  {
    if n > 0 {
      JointRunGuarantee(t, n - 1);
      assert JointStepAt(t, n - 1);
      JointStepKeepsState(t.events[n - 1], t.states[n - 1], t.states[n]);
    }
    forall key | key in t.states[n].next
      ensures KeyGuarantee(t.states[n], key)
    {
      InvGivesKeyGuarantee(t.states[n], key);
    }
    forall id | id in t.states[n].txs
      ensures AtMostOneUnsent(t.states[n].txs[id])
    {
      PricedMeansOneUnsent(t.states[n], id);
    }
  }

  predicate SetsNext(e: JointEvent, key: Addr) { e.Resets? && e.key == key && e.next.Some? }

  /** Over any step that does not set the counter of the key, the list of its handed over
      sequences stays, or grows by exactly the next one together with the counter. */
  lemma JointStepHandsOver(e: JointEvent, d: Db, d': Db, key: Addr)
    requires StateOk(d) && JointStep(e, d, d') && KeyKnown(key, d) && !SetsNext(e, key)
    ensures KeyKnown(key, d')
    ensures || (d'.handed[key] == d.handed[key] && d'.next[key] == d.next[key])
            || (d'.handed[key] == d.handed[key] + [d.next[key]] && d'.next[key] == d.next[key] + 1)
  {
  }

  /** Between two settings of its counter a key hands over start, start+1, ..., next-1,
      whether it is abandoned on the way or not. */
  lemma {:induction false} HandedOverInOrder(t: JointTrace, m: nat, n: nat, key: Addr)
    requires JointRun(t) && m <= n < |t.states| && KeyKnown(key, t.states[m])
    requires forall i :: m <= i < n ==> !SetsNext(t.events[i], key)
    ensures KeyKnown(key, t.states[n])
    ensures var start, next := t.states[m].next[key], t.states[n].next[key];
            && start <= next
            && t.states[n].handed[key] == t.states[m].handed[key] + CountUp(start, next)
    decreases n
  {
    if n == m {
      assert CountUp(t.states[m].next[key], t.states[m].next[key]) == [];
    } else {
      HandedOverInOrder(t, m, n - 1, key);
      var d, d' := t.states[n - 1], t.states[n];
      JointRunGuarantee(t, n - 1);
      assert JointStepAt(t, n - 1);
      JointStepHandsOver(t.events[n - 1], d, d', key);
      CountUpOneMore(t.states[m].next[key], d.next[key]);
    }
  }

  // ----------------------------------------- and a run of each side, as that side sees it

  function SeenByBroadcaster(e: JointEvent, key: Addr): Event {
    if e.Broadcasts? && e.key == key then Own(e.call) else Others
  }

  function SeenByConfirmer(e: JointEvent): ConfirmerEvent {
    if e.Confirms? then Mine(e.own) else Theirs
  }

  lemma StepForBroadcaster(e: JointEvent, d: Db, d': Db, key: Addr)
    requires StateOk(d) && JointStep(e, d, d') && !e.Resets?
    ensures EventStep(key, SeenByBroadcaster(e, key), d, d')
  {
    match e
    case Broadcasts(other, c) =>
      if other != key {
        OtherBroadcasterIsHarmless(other, c, d, key);
      }
    case Confirms(c) => OwnCallKeepsState(c, d, key);
    case Creates(owner, value, createdAt) => EnqueueIsHarmless(d, d', owner, value, createdAt, key);
    case Deletes(ids) => DeleteIsHarmless(d, d', ids, key);
    case Touches(ids, now) => TouchIsHarmless(d, d', ids, now, key);
    case AddsKey(added) => AddKeyIsHarmless(d, d', added, key);
  }

  lemma StepForConfirmer(e: JointEvent, d: Db, d': Db)
    requires StateOk(d) && JointStep(e, d, d') && !e.Resets?
    ensures ConfirmerEventStep(SeenByConfirmer(e), d, d')
  {
    match e
    case Broadcasts(key, c) => BroadcasterStepIsHarmless(key, c, d);
    case Confirms(c) =>
    case Creates(owner, value, createdAt) => EnqueueIsHarmless(d, d', owner, value, createdAt, 0);
    case Deletes(ids) => DeleteIsHarmless(d, d', ids, 0);
    case Touches(ids, now) => TouchIsHarmless(d, d', ids, now, 0);
    case AddsKey(added) => AddKeyIsHarmless(d, d', added, 0);
  }

  /** While there is no reset, which happens only when both sides are down, what the others
      do is no more than each side puts up with: to the Broadcaster of any key and to
      the Confirmer, the joint run is one of the runs their own theorems speak about. */
  lemma JointRunIsRunForEach(t: JointTrace, key: Addr)
    requires JointRun(t) && key in t.states[0].next && forall i :: 0 <= i < |t.events| ==> !t.events[i].Resets?
    ensures IsRun(key, Trace(t.states, seq(|t.events|, i requires 0 <= i < |t.events| => SeenByBroadcaster(t.events[i], key))))
    ensures ConfirmerRun(ConfirmerTrace(t.states, seq(|t.events|, i requires 0 <= i < |t.events| => SeenByConfirmer(t.events[i]))))
  {
    var b := Trace(t.states, seq(|t.events|, i requires 0 <= i < |t.events| => SeenByBroadcaster(t.events[i], key)));
    var c := ConfirmerTrace(t.states, seq(|t.events|, i requires 0 <= i < |t.events| => SeenByConfirmer(t.events[i])));
    forall i | 0 <= i < |t.events|
      ensures StepAt(key, b, i) && ConfirmerStepAt(c, i)
    {
      JointRunGuarantee(t, i);
      assert JointStepAt(t, i);
      StepForBroadcaster(t.events[i], t.states[i], t.states[i + 1], key);
      StepForConfirmer(t.events[i], t.states[i], t.states[i + 1]);
    }
  }
}
