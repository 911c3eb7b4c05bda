/** From a new head to the subscribers: handleNewHead and the broadcast loop of
    common/headtracker/head_tracker.go, and common/headtracker/head_broadcaster.go.

    The two mailboxes are taken by their specification (module Mailbox). A run is
    any interleaving of the listener, the backfiller's saves, the broadcast loop,
    the broadcaster's run loop, its callbacks, subscriptions and shutdown. */
module HeadPipeline {
  import opened Options
  import Mailbox

  datatype Head = Head(number: int, hash: int)

  const HEADS_BUFFER_SIZE: nat := 10

  ghost predicate Increasing(s: seq<Head>) {
    forall i, j :: 0 <= i < j < |s| ==> s[i].number < s[j].number
  }

  // ----------------------------------------------------------------- listener

  /** handleNewHead: after the latest head was read, and after the new one was saved
      and found to be higher. */
  datatype Handler = Idle | Checking(head: Head, prev: Option<int>) | Accepting(head: Head)

  /** `latestSaved` is the number of HeadSaver.LatestChain, the highest ever saved;
      `accepted` the heads that were delivered to the mailboxes. `received` is history:
      the heads that the handler was given. */
  datatype Listener = Listener(latestSaved: Option<int>, handler: Handler, accepted: seq<Head>, received: seq<Head>)

  datatype ListenerAction =
    | Receive(head: Head)
    | Save(stored: bool, failed: bool, cancelled: bool)
    | FindsNoChain
    | BackfillSaves(number: int)

  function Saved(latest: Option<int>, number: int): Option<int> {
    if latest.None? || latest.value < number then Some(number) else latest
  }

  predicate ListenerEnabled(s: Listener, a: ListenerAction) {
    match a
    case Receive(_) => s.handler.Idle?
    case Save(stored, failed, cancelled) => s.handler.Checking? && (stored || failed || cancelled)
    case FindsNoChain => s.handler.Accepting?
    case BackfillSaves(_) => true
  }

  function ListenerStep(s: Listener, a: ListenerAction): Listener
    requires ListenerEnabled(s, a)
  {
    match a
    case Receive(head) => s.(handler := Checking(head, s.latestSaved), received := s.received + [head])
    case Save(stored, failed, cancelled) =>
      var head, prev := s.handler.head, s.handler.prev;
      var latest := if stored then Saved(s.latestSaved, head.number) else s.latestSaved;
      s.(latestSaved := latest,
         handler := if !cancelled && !failed && (prev.None? || head.number > prev.value) then Accepting(head) else Idle)
    case FindsNoChain => s.(handler := Idle)
    case BackfillSaves(number) => s.(latestSaved := Saved(s.latestSaved, number))
  }

  function Accept(s: Listener): Listener
    requires s.handler.Accepting?
  {
    s.(handler := Idle, accepted := s.accepted + [s.handler.head])
  }

  ghost predicate AcceptedBelow(s: Listener, n: int) { forall k :: 0 <= k < |s.accepted| ==> s.accepted[k].number < n }

  ghost predicate ListenerInv(s: Listener) {
    && Increasing(s.accepted)
    && (s.accepted != [] ==> s.latestSaved.Some? && AcceptedBelow(s, s.latestSaved.value + 1))
    && (s.handler.Checking? ==> if s.handler.prev.Some? then AcceptedBelow(s, s.handler.prev.value + 1) else s.accepted == [])
    && (s.handler.Accepting? ==>
          AcceptedBelow(s, s.handler.head.number) && s.latestSaved.Some? && s.handler.head.number <= s.latestSaved.value)
  }

  lemma ListenerStepKeepsInv(s: Listener, a: ListenerAction)
    requires ListenerInv(s) && ListenerEnabled(s, a)
    ensures ListenerInv(ListenerStep(s, a))
  {
  }

  lemma AcceptKeepsInv(s: Listener)
    requires ListenerInv(s) && s.handler.Accepting?
    ensures ListenerInv(Accept(s))
  {
  }

  // ------------------------------------------------- exactly which heads are accepted

  /** Higher than what was loaded at the start and than all of these. */
  ghost predicate Above(loaded: Option<int>, heads: seq<Head>, number: int) {
    (loaded.Some? ==> loaded.value < number) && forall k :: 0 <= k < |heads| ==> heads[k].number < number
  }

  /** The heads that are higher than everything before them. */
  ghost function Records(loaded: Option<int>, heads: seq<Head>): seq<Head> {
    if heads == [] then []
    else
      var n := |heads| - 1;
      Records(loaded, heads[..n]) + if Above(loaded, heads[..n], heads[n].number) then [heads[n]] else []
  }

  ghost predicate Reached(loaded: Option<int>, heads: seq<Head>, number: int) {
    !Above(loaded, heads, number)
  }

  /** `latest` is the highest number loaded or among these. */
  ghost predicate IsHighest(latest: Option<int>, loaded: Option<int>, heads: seq<Head>) {
    match latest
    case None => loaded.None? && heads == []
    case Some(n) => Reached(loaded, heads, n) && Above(loaded, heads, n + 1)
  }

  /** Nothing goes wrong in this step, and the backfiller saves no number above those
      that arrived. */
  ghost predicate Smooth(loaded: Option<int>, s: Listener, a: ListenerAction) {
    match a
    case Receive(_) => true
    case Save(stored, failed, cancelled) => stored && !failed && !cancelled
    case FindsNoChain => false
    case BackfillSaves(number) => Reached(loaded, s.received, number)
  }

  /** What was accepted so far, with the head that the handler has in hand. */
  ghost predicate ExactInv(loaded: Option<int>, s: Listener) {
    match s.handler
    case Idle => IsHighest(s.latestSaved, loaded, s.received) && s.accepted == Records(loaded, s.received)
    case Checking(head, prev) =>
      && s.received != [] && s.received[|s.received| - 1] == head
      && IsHighest(prev, loaded, s.received[..|s.received| - 1])
      && (s.latestSaved.Some? ==> Reached(loaded, s.received, s.latestSaved.value))
      && (prev.Some? ==> s.latestSaved.Some? && prev.value <= s.latestSaved.value)
      && s.accepted == Records(loaded, s.received[..|s.received| - 1])
    case Accepting(head) => IsHighest(s.latestSaved, loaded, s.received) && s.accepted + [head] == Records(loaded, s.received)
  }

  lemma SmoothStepIsExact(loaded: Option<int>, s: Listener, a: ListenerAction)
    requires ListenerEnabled(s, a) && ExactInv(loaded, s) && Smooth(loaded, s, a)
    ensures ExactInv(loaded, ListenerStep(s, a))
  {
    if a.Receive? {
      assert (s.received + [a.head])[..|s.received|] == s.received;
    }
  }

  // ----------------------------------------------------------- broadcast loop

  datatype Loop = LoopWaiting | LoopDraining | LoopHolding(head: Head) | LoopGone

  datatype Tracker = Tracker(queue: seq<Head>, notify: bool, sampling: bool, loop: Loop, stopping: bool)

  datatype TrackerAction = Wakes | Retrieves | Ticks | Stops | Quits

  predicate TrackerEnabled(s: Tracker, a: TrackerAction) {
    match a
    case Wakes => !s.sampling && s.loop.LoopWaiting? && s.notify
    case Retrieves => s.loop.LoopDraining?
    case Ticks => s.sampling && s.loop.LoopWaiting?
    case Stops => true
    case Quits => s.stopping && s.loop.LoopWaiting?
  }

  function TrackerStep(s: Tracker, a: TrackerAction): Tracker
    requires TrackerEnabled(s, a)
  {
    match a
    case Wakes => s.(notify := false, loop := LoopDraining)
    case Retrieves => if s.queue == [] then s.(loop := LoopWaiting) else s.(queue := s.queue[1..], loop := LoopHolding(s.queue[0]))
    case Ticks => if s.queue == [] then s else s.(queue := [], loop := LoopHolding(s.queue[|s.queue| - 1]))
    case Stops => s.(stopping := true)
    case Quits => s.(loop := LoopGone)
  }

  function TrackerDeliver(s: Tracker, head: Head): Tracker {
    s.(queue := Mailbox.Newest(s.queue + [head], HEADS_BUFFER_SIZE), notify := true)
  }

  function TrackerPass(s: Tracker): Tracker
    requires s.loop.LoopHolding?
  {
    s.(loop := if s.sampling then LoopWaiting else LoopDraining)
  }

  /** A head that waits in the mailbox is either due at the next tick or announced. */
  predicate TrackerInv(s: Tracker) {
    && (s.sampling ==> !s.loop.LoopDraining?)
    && (s.queue != [] && !s.sampling && s.loop.LoopWaiting? ==> s.notify)
  }

  // -------------------------------------------------------------- broadcaster

  datatype Runner = RunWaiting | RunRetrieving | RunHolding(head: Head) | RunCalling(head: Head, remaining: set<int>) | RunGone

  /** `join` is how many heads had been executed when the subscription began. */
  datatype Subscriber = Subscriber(join: nat, current: Option<Head>, received: seq<Head>, unsubscribed: bool)

  datatype Broadcaster = Broadcaster(
    queue: seq<Head>, notify: bool, runner: Runner, latest: Option<Head>, executed: seq<Head>,
    lastCallbackID: nat, callbacks: set<int>, subscribers: map<int, Subscriber>, closed: bool)

  datatype RunnerAction = RunWakes | RunRetrieves | RunSnapshots | RunDone | Closes | RunQuits

  predicate RunnerEnabled(s: Broadcaster, a: RunnerAction) {
    match a
    case RunWakes => s.runner.RunWaiting? && s.notify
    case RunRetrieves => s.runner.RunRetrieving?
    case RunSnapshots => s.runner.RunHolding?
    case RunDone => s.runner.RunCalling? && s.runner.remaining == {}
    case Closes => true
    case RunQuits => s.closed && s.runner.RunWaiting?
  }

  /** executeCallbacks takes one head, then remembers it as the latest together with a
      copy of the callbacks, under the mutex. */
  function RunnerStep(s: Broadcaster, a: RunnerAction): Broadcaster
    requires RunnerEnabled(s, a)
  {
    match a
    case RunWakes => s.(notify := false, runner := RunRetrieving)
    case RunRetrieves => if s.queue == [] then s.(runner := RunWaiting) else s.(queue := s.queue[1..], runner := RunHolding(s.queue[0]))
    case RunSnapshots =>
      s.(runner := RunCalling(s.runner.head, s.callbacks), latest := Some(s.runner.head), executed := s.executed + [s.runner.head])
    case RunDone => s.(runner := RunWaiting)
    case Closes => s.(callbacks := {}, closed := true)
    case RunQuits => s.(runner := RunGone)
  }

  function BroadcasterDeliver(s: Broadcaster, head: Head): Broadcaster {
    s.(queue := Mailbox.Newest(s.queue + [head], 1), notify := true)
  }

  predicate CanCall(s: Broadcaster, id: int) { s.runner.RunCalling? && id in s.runner.remaining && id in s.subscribers }

  /** One of the callback goroutines hands the head to its subscriber. */
  function Call(s: Broadcaster, id: int): Broadcaster
    requires CanCall(s, id)
  {
    var sub := s.subscribers[id];
    s.(runner := RunCalling(s.runner.head, s.runner.remaining - {id}),
       subscribers := s.subscribers[id := sub.(received := sub.received + [s.runner.head])])
  }

  function Subscribe(s: Broadcaster): Broadcaster {
    var id := s.lastCallbackID + 1;
    s.(lastCallbackID := id, callbacks := s.callbacks + {id},
       subscribers := s.subscribers[id := Subscriber(|s.executed|, s.latest, [], false)])
  }

  function Unsubscribe(s: Broadcaster, id: int): Broadcaster
    requires id in s.subscribers
  {
    s.(callbacks := s.callbacks - {id}, subscribers := s.subscribers[id := s.subscribers[id].(unsubscribed := true)])
  }

  /** A head that waits for the run loop is announced, unless it is just being fetched. */
  predicate WakeInv(s: Broadcaster) {
    |s.queue| <= 1 && (s.queue != [] && !s.runner.RunRetrieving? ==> s.notify)
  }

  /** The callback of this subscriber is still to be called with the current head. */
  predicate Pending(s: Broadcaster, id: int) { s.runner.RunCalling? && id in s.runner.remaining }

  /** The subscriber was given a contiguous run of the executed heads that starts right
      after the head it was told at subscription; and as long as its callback is
      registered the run reaches up to the newest, but for a call that is pending. */
  ghost predicate SubscriberOk(s: Broadcaster, id: int, sub: Subscriber) {
    var upTo := sub.join + |sub.received|;
    && upTo <= |s.executed|
    && sub.current == (if sub.join == 0 then None else Some(s.executed[sub.join - 1]))
    && sub.received == s.executed[sub.join..upTo]
    && (Pending(s, id) ==> upTo == |s.executed| - 1)
    && (id in s.callbacks && !Pending(s, id) ==> upTo == |s.executed|)
  }

  ghost predicate BroadcasterInv(s: Broadcaster) {
    && s.latest == (if s.executed == [] then None else Some(s.executed[|s.executed| - 1]))
    && (s.runner.RunCalling? ==> s.latest == Some(s.runner.head) && forall id :: id in s.runner.remaining ==> id in s.subscribers)
    && (forall id :: id in s.subscribers ==> 0 < id <= s.lastCallbackID && SubscriberOk(s, id, s.subscribers[id]))
    && (forall id :: id in s.callbacks ==> id in s.subscribers && !s.subscribers[id].unsubscribed)
    && (!s.closed ==> forall id :: id in s.subscribers && !s.subscribers[id].unsubscribed ==> id in s.callbacks)
  }

  lemma SnapshotKeepsInv(s: Broadcaster)
    requires BroadcasterInv(s) && RunnerEnabled(s, RunSnapshots)
    ensures BroadcasterInv(RunnerStep(s, RunSnapshots))
  {
    var s' := RunnerStep(s, RunSnapshots);
    forall id | id in s'.subscribers
      ensures SubscriberOk(s', id, s'.subscribers[id])
    {
      assert SubscriberOk(s, id, s.subscribers[id]);
    }
  }

  /** Where neither the heads nor the subscribers change and no call is pending before or after. */
  lemma QuietStepKeepsInv(s: Broadcaster, s': Broadcaster)
    requires BroadcasterInv(s) && (s.runner.RunCalling? ==> s.runner.remaining == {}) && !s'.runner.RunCalling?
    requires s'.latest == s.latest && s'.executed == s.executed && s'.subscribers == s.subscribers
    requires s'.lastCallbackID == s.lastCallbackID && s'.callbacks == s.callbacks && s'.closed == s.closed
    ensures BroadcasterInv(s')
  {
  }

  lemma CloseKeepsInv(s: Broadcaster)
    requires BroadcasterInv(s)
    ensures BroadcasterInv(RunnerStep(s, Closes))
  {
  }

  lemma RunnerStepKeepsInv(s: Broadcaster, a: RunnerAction)
    requires BroadcasterInv(s) && RunnerEnabled(s, a)
    ensures BroadcasterInv(RunnerStep(s, a))
  {
    match a
    case RunSnapshots => SnapshotKeepsInv(s);
    case Closes => CloseKeepsInv(s);
    case _ => QuietStepKeepsInv(s, RunnerStep(s, a));
  }

  lemma CallKeepsInv(s: Broadcaster, called: int)
    requires BroadcasterInv(s) && CanCall(s, called)
    ensures BroadcasterInv(Call(s, called))
  {
    var s' := Call(s, called);
    forall id | id in s'.subscribers
      ensures SubscriberOk(s', id, s'.subscribers[id])
    {
      assert SubscriberOk(s, id, s.subscribers[id]);
    }
  }

  lemma SubscribeKeepsInv(s: Broadcaster)
    requires BroadcasterInv(s)
    ensures BroadcasterInv(Subscribe(s)) && s.lastCallbackID + 1 !in s.subscribers
  {
    var s' := Subscribe(s);
    forall id | id in s'.subscribers
      ensures SubscriberOk(s', id, s'.subscribers[id])
    {
      if id in s.subscribers {
        assert SubscriberOk(s, id, s.subscribers[id]);
      }
    }
  }

  /** Unsubscribing one callback never removes another. */
  lemma UnsubscribeKeepsInv(s: Broadcaster, gone: int)
    requires BroadcasterInv(s) && gone in s.subscribers
    ensures BroadcasterInv(Unsubscribe(s, gone))
    ensures !s.closed ==> forall id :: id in s.subscribers && !s.subscribers[id].unsubscribed && id != gone ==>
              id in Unsubscribe(s, gone).callbacks
  {
    var s' := Unsubscribe(s, gone);
    forall id | id in s'.subscribers
      ensures SubscriberOk(s', id, s'.subscribers[id])
    {
      assert SubscriberOk(s, id, s.subscribers[id]);
    }
  }

  // ----------------------------------------------------------------- pipeline

  datatype Pipeline = Pipeline(listener: Listener, tracker: Tracker, broadcaster: Broadcaster)

  datatype Action =
    | OfListener(l: ListenerAction)
    | Delivers
    | OfTracker(t: TrackerAction)
    | Passes
    | OfRunner(r: RunnerAction)
    | Calls(id: int)
    | Subscribes
    | Unsubscribes(id: int)

  predicate Enabled(s: Pipeline, a: Action) {
    match a
    case OfListener(l) => ListenerEnabled(s.listener, l)
    case Delivers => s.listener.handler.Accepting?
    case OfTracker(t) => TrackerEnabled(s.tracker, t)
    case Passes => s.tracker.loop.LoopHolding?
    case OfRunner(r) => RunnerEnabled(s.broadcaster, r)
    case Calls(id) => CanCall(s.broadcaster, id)
    case Subscribes => true
    case Unsubscribes(id) => id in s.broadcaster.subscribers
  }

  function Apply(s: Pipeline, a: Action): Pipeline
    requires Enabled(s, a)
  {
    match a
    case OfListener(l) => s.(listener := ListenerStep(s.listener, l))
    case Delivers => s.(listener := Accept(s.listener), tracker := TrackerDeliver(s.tracker, s.listener.handler.head))
    case OfTracker(t) => s.(tracker := TrackerStep(s.tracker, t))
    case Passes => s.(tracker := TrackerPass(s.tracker), broadcaster := BroadcasterDeliver(s.broadcaster, s.tracker.loop.head))
    case OfRunner(r) => s.(broadcaster := RunnerStep(s.broadcaster, r))
    case Calls(id) => s.(broadcaster := Call(s.broadcaster, id))
    case Subscribes => s.(broadcaster := Subscribe(s.broadcaster))
    case Unsubscribes(id) => s.(broadcaster := Unsubscribe(s.broadcaster, id))
  }

  /** `loaded` is the highest head that an earlier process left in the database. */
  function Initial(sampling: bool, loaded: Option<int>): Pipeline {
    Pipeline(Listener(loaded, Idle, [], []), Tracker([], false, sampling, LoopWaiting, false),
             Broadcaster([], false, RunWaiting, None, [], 0, {}, map[], false))
  }

  ghost predicate IsRun(states: seq<Pipeline>, actions: seq<Action>) {
    && |states| == |actions| + 1
    && (exists sampling, loaded :: states[0] == Initial(sampling, loaded))
    && forall i :: 0 <= i < |actions| ==> Enabled(states[i], actions[i]) && states[i + 1] == Apply(states[i], actions[i])
  }

  // --------------------------------------------------------------------- flow

  function InHand(t: Tracker): seq<Head> { if t.loop.LoopHolding? then [t.loop.head] else [] }

  function Back(t: Tracker): seq<Head> { InHand(t) + t.queue }

  function Front(b: Broadcaster): seq<Head> { b.executed + (if b.runner.RunHolding? then [b.runner.head] else []) + b.queue }

  /** What was executed, and what would be if nothing more were dropped, in order. */
  function Flow(s: Pipeline): seq<Head> { Front(s.broadcaster) + Back(s.tracker) }

  /** In order, accepted, and the newest accepted head is the last of it. */
  ghost predicate FlowOk(flow: seq<Head>, accepted: seq<Head>) {
    && Increasing(flow)
    && (forall k :: 0 <= k < |flow| ==> flow[k] in accepted)
    && (accepted != [] ==> flow != [] && flow[|flow| - 1] == accepted[|accepted| - 1])
  }

  /** Dropping heads from the middle hurts neither the order nor the newest. */
  lemma DropKeepsFlow(a: seq<Head>, b: seq<Head>, c: seq<Head>, accepted: seq<Head>)
    requires FlowOk(a + b + c, accepted) && c != []
    ensures FlowOk(a + c, accepted)
  {
    var s, t := a + b + c, a + c;
    forall k | 0 <= k < |t|
      ensures t[k] == s[if k < |a| then k else k + |b|]
    {
    }
  }

  lemma ExtendFlow(flow: seq<Head>, accepted: seq<Head>, head: Head)
    requires FlowOk(flow, accepted) && forall k :: 0 <= k < |accepted| ==> accepted[k].number < head.number
    ensures FlowOk(flow + [head], accepted + [head])
  {
  }

  lemma NewestKeepsFlow(front: seq<Head>, queue: seq<Head>, capacity: nat, accepted: seq<Head>)
    requires FlowOk(front + queue, accepted) && queue != [] && capacity > 0
    ensures FlowOk(front + Mailbox.Newest(queue, capacity), accepted)
  {
    var kept := Mailbox.Newest(queue, capacity);
    var dropped := queue[..|queue| - |kept|];
    assert front + queue == front + dropped + kept;
    DropKeepsFlow(front, dropped, kept, accepted);
  }

  lemma DeliverKeepsFlow(front: seq<Head>, t: Tracker, accepted: seq<Head>, head: Head)
    requires FlowOk(front + Back(t), accepted) && forall k :: 0 <= k < |accepted| ==> accepted[k].number < head.number
    ensures FlowOk(front + Back(TrackerDeliver(t, head)), accepted + [head])
  {
    Regroup(front, t, head);
    ExtendFlow(front + Back(t), accepted, head);
    NewestKeepsFlow(front + InHand(t), t.queue + [head], HEADS_BUFFER_SIZE, accepted + [head]);
  }

  lemma Regroup(front: seq<Head>, t: Tracker, head: Head)
    ensures front + Back(t) + [head] == (front + InHand(t)) + (t.queue + [head])
    ensures front + Back(TrackerDeliver(t, head)) == (front + InHand(t)) + Mailbox.Newest(t.queue + [head], HEADS_BUFFER_SIZE)
  {
  }

  lemma TrackerStepKeepsFlow(front: seq<Head>, t: Tracker, a: TrackerAction, accepted: seq<Head>)
    requires FlowOk(front + Back(t), accepted) && TrackerEnabled(t, a)
    ensures FlowOk(front + Back(TrackerStep(t, a)), accepted)
  {
    if a.Ticks? && t.queue != [] {
      var n := |t.queue| - 1;
      assert t.queue == t.queue[..n] + [t.queue[n]];
      assert front + Back(t) == front + t.queue[..n] + [t.queue[n]];
      DropKeepsFlow(front, t.queue[..n], [t.queue[n]], accepted);
      assert Back(TrackerStep(t, a)) == [t.queue[n]];
    } else {
      assert Back(TrackerStep(t, a)) == Back(t);
    }
  }

  lemma PassKeepsFlow(b: Broadcaster, t: Tracker, accepted: seq<Head>)
    requires FlowOk(Front(b) + Back(t), accepted) && t.loop.LoopHolding? && |b.queue| <= 1
    ensures FlowOk(Front(BroadcasterDeliver(b, t.loop.head)) + Back(TrackerPass(t)), accepted)
  {
    var front := b.executed + (if b.runner.RunHolding? then [b.runner.head] else []);
    var head, rest := t.loop.head, t.queue;
    assert Front(b) == front + b.queue && Back(t) == [head] + rest;
    DropKeepsFlow(front, b.queue, Back(t), accepted);
    var b', t' := BroadcasterDeliver(b, head), TrackerPass(t);
    assert Front(b') == front + [head] && Back(t') == [] + rest;
    Reassociate(front, head, rest);
  }

  lemma Reassociate(front: seq<Head>, head: Head, rest: seq<Head>)
    ensures (front + [head]) + ([] + rest) == front + ([head] + rest)
  {
  }

  lemma RunnerStepKeepsFront(b: Broadcaster, a: RunnerAction)
    requires RunnerEnabled(b, a)
    ensures Front(RunnerStep(b, a)) == Front(b)
  {
  }

  // ---------------------------------------------------------------- invariant

  ghost predicate Inv(s: Pipeline) {
    && ListenerInv(s.listener) && TrackerInv(s.tracker)
    && WakeInv(s.broadcaster) && BroadcasterInv(s.broadcaster)
    && FlowOk(Flow(s), s.listener.accepted)
  }

  lemma StepKeepsFlow(s: Pipeline, a: Action)
    requires Inv(s) && Enabled(s, a)
    ensures var s' := Apply(s, a); FlowOk(Flow(s'), s'.listener.accepted)
  {
    match a
    case Delivers => DeliverKeepsFlow(Front(s.broadcaster), s.tracker, s.listener.accepted, s.listener.handler.head);
    case OfTracker(t) => TrackerStepKeepsFlow(Front(s.broadcaster), s.tracker, t, s.listener.accepted);
    case Passes => PassKeepsFlow(s.broadcaster, s.tracker, s.listener.accepted);
    case OfRunner(r) => RunnerStepKeepsFront(s.broadcaster, r);
    case _ => OthersKeepFlow(s, a);
  }

  lemma OthersKeepFlow(s: Pipeline, a: Action)
    requires Enabled(s, a) && (a.OfListener? || a.Calls? || a.Subscribes? || a.Unsubscribes?)
    ensures Flow(Apply(s, a)) == Flow(s) && Apply(s, a).listener.accepted == s.listener.accepted
  {
  }

  lemma DeliverKeepsSubscribers(b: Broadcaster, head: Head)
    requires BroadcasterInv(b)
    ensures BroadcasterInv(BroadcasterDeliver(b, head))
  {
  }

  lemma StepKeepsSubscribers(s: Pipeline, a: Action)
    requires Inv(s) && Enabled(s, a)
    ensures BroadcasterInv(Apply(s, a).broadcaster)
  {
    match a
    case Passes => DeliverKeepsSubscribers(s.broadcaster, s.tracker.loop.head);
    case OfRunner(r) => RunnerStepKeepsInv(s.broadcaster, r);
    case Calls(id) => CallKeepsInv(s.broadcaster, id);
    case Subscribes => SubscribeKeepsInv(s.broadcaster);
    case Unsubscribes(id) => UnsubscribeKeepsInv(s.broadcaster, id);
    case _ => assert Apply(s, a).broadcaster == s.broadcaster;
  }

  lemma StepKeepsMailboxes(s: Pipeline, a: Action)
    requires TrackerInv(s.tracker) && WakeInv(s.broadcaster) && Enabled(s, a)
    ensures TrackerInv(Apply(s, a).tracker) && WakeInv(Apply(s, a).broadcaster)
  {
  }

  lemma StepKeepsListener(s: Pipeline, a: Action)
    requires Inv(s) && Enabled(s, a)
    ensures ListenerInv(Apply(s, a).listener)
  {
    match a
    case OfListener(l) => ListenerStepKeepsInv(s.listener, l);
    case Delivers => AcceptKeepsInv(s.listener);
    case _ => assert Apply(s, a).listener == s.listener;
  }

  lemma StepKeepsInv(s: Pipeline, a: Action)
    requires Inv(s) && Enabled(s, a)
    ensures Inv(Apply(s, a))
  {
    StepKeepsListener(s, a);
    StepKeepsMailboxes(s, a);
    StepKeepsSubscribers(s, a);
    StepKeepsFlow(s, a);
  }

  // ----------------------------------------------------------------- theorems

  /** Main theorem, for every interleaving, with sampling or without and with any drops:
      what was executed and what is on its way are accepted heads in strictly
      increasing order that end in the newest accepted one. */
  lemma {:induction false} EveryRunIsOrdered(states: seq<Pipeline>, actions: seq<Action>, n: nat)
    requires IsRun(states, actions) && n < |states|
    ensures Inv(states[n])
    ensures Increasing(states[n].listener.accepted) && Increasing(states[n].broadcaster.executed)
    ensures forall k :: 0 <= k < |states[n].broadcaster.executed| ==> states[n].broadcaster.executed[k] in states[n].listener.accepted
    ensures FlowOk(Flow(states[n]), states[n].listener.accepted)
  {
    if n > 0 {
      EveryRunIsOrdered(states, actions, n - 1);
      StepKeepsInv(states[n - 1], actions[n - 1]);
      assert states[n - 1 + 1] == Apply(states[n - 1], actions[n - 1]);
    }
    ExecutedIsFront(states[n]);
  }

  lemma ExecutedIsFront(s: Pipeline)
    requires FlowOk(Flow(s), s.listener.accepted)
    ensures Increasing(s.broadcaster.executed)
    ensures forall k :: 0 <= k < |s.broadcaster.executed| ==> s.broadcaster.executed[k] in s.listener.accepted
  {
    forall k | 0 <= k < |s.broadcaster.executed|
      ensures s.broadcaster.executed[k] == Flow(s)[k]
    {
    }
  }

  /** Which heads are accepted: in a run in which saving never fails, nothing is cancelled, no
      chain is missing and the backfiller saves nothing above what arrived, exactly those
      that are higher than every head before them, none left out and none twice. */
  lemma {:induction false} AcceptsExactlyTheRecords(loaded: Option<int>, states: seq<Pipeline>, actions: seq<Action>, n: nat)
    requires IsRun(states, actions) && n < |states| && states[0].listener.latestSaved == loaded
    requires forall i :: 0 <= i < n && actions[i].OfListener? ==> Smooth(loaded, states[i].listener, actions[i].l)
    ensures ExactInv(loaded, states[n].listener)
    ensures states[n].listener.handler.Idle? ==> states[n].listener.accepted == Records(loaded, states[n].listener.received)
  {
    if n > 0 {
      AcceptsExactlyTheRecords(loaded, states, actions, n - 1);
      assert states[n - 1 + 1] == Apply(states[n - 1], actions[n - 1]);
      if actions[n - 1].OfListener? {
        SmoothStepIsExact(loaded, states[n - 1].listener, actions[n - 1].l);
      }
    }
  }

  /** A head in the handler's hands was received while the highest saved head was `prev`. */
  ghost predicate ReceivedAt(states: seq<Pipeline>, actions: seq<Action>, i: nat, head: Head, prev: Option<int>) {
    && i < |actions| && i < |states| && actions[i] == OfListener(Receive(head)) && states[i].listener.latestSaved == prev
  }

  lemma {:induction false} CheckedWasReceived(states: seq<Pipeline>, actions: seq<Action>, n: nat) returns (i: nat)
    requires IsRun(states, actions) && n < |states| && states[n].listener.handler.Checking?
    ensures i < n && ReceivedAt(states, actions, i, states[n].listener.handler.head, states[n].listener.handler.prev)
  {
    if n > 0 {
      assert states[n - 1 + 1] == Apply(states[n - 1], actions[n - 1]);
      if states[n - 1].listener.handler.Checking? {
        i := CheckedWasReceived(states, actions, n - 1);
      } else {
        i := n - 1;
      }
    }
  }

  /** The head was accepted, it is about to be, or its chain was missing. */
  ghost predicate Decided(states: seq<Pipeline>, actions: seq<Action>, j: nat, n: nat, head: Head) {
    && n < |states|
    && (|| states[n].listener.handler == Accepting(head)
        || head in states[n].listener.accepted
        || exists k :: j < k < n && k < |actions| && actions[k] == OfListener(FindsNoChain) && states[k].listener.handler == Accepting(head))
  }

  /** Whatever else goes wrong: a head that was saved, with a number above the highest one
      saved when it arrived, is accepted unless its chain is missing. */
  lemma {:induction false} HigherHeadIsAccepted(states: seq<Pipeline>, actions: seq<Action>, j: nat, n: nat)
    requires IsRun(states, actions) && j < n < |states| && states[j].listener.handler.Checking?
    requires actions[j].OfListener? && actions[j].l.Save? && !actions[j].l.failed && !actions[j].l.cancelled
    requires states[j].listener.handler.prev.None? || states[j].listener.handler.prev.value < states[j].listener.handler.head.number
    ensures exists i: nat :: i < j && ReceivedAt(states, actions, i, states[j].listener.handler.head, states[j].listener.handler.prev)
    ensures Decided(states, actions, j, n, states[j].listener.handler.head)
    decreases n
  {
    var i := CheckedWasReceived(states, actions, j);
    var head := states[j].listener.handler.head;
    assert states[n - 1 + 1] == Apply(states[n - 1], actions[n - 1]);
    if j < n - 1 {
      HigherHeadIsAccepted(states, actions, j, n - 1);
      StaysDecided(states[n - 1], actions[n - 1], head);
    }
  }

  lemma StaysDecided(s: Pipeline, a: Action, head: Head)
    requires Enabled(s, a)
    ensures head in s.listener.accepted ==> head in Apply(s, a).listener.accepted
    ensures s.listener.handler == Accepting(head) ==>
              || Apply(s, a).listener.handler == Accepting(head)
              || head in Apply(s, a).listener.accepted
              || a == OfListener(FindsNoChain)
  {
  }

  /** The newest accepted head is never lost: when nothing is in hand and both mailboxes
      are empty it is the last one that was executed. */
  lemma NewestArrives(states: seq<Pipeline>, actions: seq<Action>, n: nat)
    requires IsRun(states, actions) && n < |states|
    ensures var s := states[n];
            s.listener.accepted != [] && s.tracker.queue == [] && !s.tracker.loop.LoopHolding?
            && s.broadcaster.queue == [] && !s.broadcaster.runner.RunHolding? ==>
              s.broadcaster.latest == Some(s.listener.accepted[|s.listener.accepted| - 1])
    ensures var s := states[n];
            s.broadcaster.queue != [] && s.broadcaster.runner.RunWaiting? ==> Enabled(s, OfRunner(RunWakes))
    ensures var s := states[n];
            s.tracker.queue != [] && s.tracker.loop.LoopWaiting? ==> Enabled(s, OfTracker(if s.tracker.sampling then Ticks else Wakes))
  {
    EveryRunIsOrdered(states, actions, n);
    var s := states[n];
    if s.tracker.queue == [] && !s.tracker.loop.LoopHolding? && s.broadcaster.queue == [] && !s.broadcaster.runner.RunHolding? {
      assert Flow(s) == s.broadcaster.executed;
    }
  }

  function Seen(sub: Subscriber): seq<Head> { (if sub.current.Some? then [sub.current.value] else []) + sub.received }

  ghost predicate RunOf(seen: seq<Head>, s: seq<Head>, from: nat) { from + |seen| <= |s| && seen == s[from..from + |seen|] }

  lemma SeenIsRun(b: Broadcaster, id: int)
    requires BroadcasterInv(b) && id in b.subscribers
    ensures var sub := b.subscribers[id]; RunOf(Seen(sub), b.executed, if sub.join == 0 then 0 else sub.join - 1)
  {
  }

  lemma SeenIsUpToDate(b: Broadcaster, id: int)
    requires BroadcasterInv(b) && id in b.subscribers
    ensures var sub := b.subscribers[id];
            !b.closed && !sub.unsubscribed && !Pending(b, id) && Seen(sub) != [] ==> b.latest == Some(Seen(sub)[|Seen(sub)| - 1])
  {
  }

  /** What a subscriber sees: the head returned by Subscribe and the heads its callback
      was given are a contiguous run of the executed heads, none missed and none
      repeated; their numbers increase and all were accepted; and one that has not
      unsubscribed is up to date, but for a call that is on its way. */
  lemma SubscriberSeesContiguousRun(states: seq<Pipeline>, actions: seq<Action>, n: nat, id: int)
    requires IsRun(states, actions) && n < |states| && id in states[n].broadcaster.subscribers
    ensures var b, seen := states[n].broadcaster, Seen(states[n].broadcaster.subscribers[id]);
            && (exists from: nat :: RunOf(seen, b.executed, from))
            && Increasing(seen)
            && (forall k :: 0 <= k < |seen| ==> seen[k] in states[n].listener.accepted)
    ensures var b, sub := states[n].broadcaster, states[n].broadcaster.subscribers[id];
            !b.closed && !sub.unsubscribed && !Pending(b, id) && Seen(sub) != [] ==> b.latest == Some(Seen(sub)[|Seen(sub)| - 1])
  {
    EveryRunIsOrdered(states, actions, n);
    var b := states[n].broadcaster;
    SeenIsRun(b, id);
    SeenIsUpToDate(b, id);
    var seen := Seen(b.subscribers[id]);
    RunInherits(seen, b.executed, if b.subscribers[id].join == 0 then 0 else b.subscribers[id].join - 1, states[n].listener.accepted);
  }

  lemma RunInherits(seen: seq<Head>, s: seq<Head>, from: nat, accepted: seq<Head>)
    requires RunOf(seen, s, from) && Increasing(s) && forall k :: 0 <= k < |s| ==> s[k] in accepted
    ensures Increasing(seen) && forall k :: 0 <= k < |seen| ==> seen[k] in accepted
  {
  }
}
