/** Mailbox (core/utils/mailbox.go): a queue under a mutex, newest item first, with a
    channel that holds at most one notification.

    Its specification is a FIFO, oldest item first, that keeps the newest `capacity`
    items; capacity 0 means unbounded. */
module Mailbox {

  // ------------------------------------------------------------ specification

  function Newest<T>(s: seq<T>, capacity: nat): (r: seq<T>)
    ensures |r| == if capacity > 0 && |s| > capacity then capacity else |s|
  {
    if capacity > 0 && |s| > capacity then s[|s| - capacity..] else s
  }

  function Reversed<T>(s: seq<T>): (r: seq<T>)
    ensures |r| == |s| && forall k :: 0 <= k < |s| ==> r[k] == s[|s| - 1 - k]
  {
    seq(|s|, k requires 0 <= k < |s| => s[|s| - 1 - k])
  }

  /** What became of a delivered item that is no longer queued. */
  datatype Fate = Retrieved | Dropped | Cleared

  /** The delivered items that met this fate, in the order of delivery. */
  function WithFate<T>(items: seq<T>, fates: seq<Fate>, f: Fate): seq<T>
    requires |fates| <= |items|
  {
    if fates == [] then []
    else
      var n := |fates| - 1;
      WithFate(items, fates[..n], f) + if fates[n] == f then [items[n]] else []
  }

  ghost function Occurrences<T>(s: seq<T>, x: T): nat {
    if s == [] then 0 else Occurrences(s[..|s| - 1], x) + if s[|s| - 1] == x then 1 else 0
  }

  lemma {:induction false} OccurrencesAppend<T>(s: seq<T>, t: seq<T>, x: T)
    ensures Occurrences(s + t, x) == Occurrences(s, x) + Occurrences(t, x)
    decreases |t|
  {
    if t == [] {
      assert s + t == s;
    } else {
      assert (s + t)[..|s + t| - 1] == s + t[..|t| - 1];
      OccurrencesAppend(s, t[..|t| - 1], x);
    }
  }

  /** Every delivered item was retrieved, dropped or cleared, or is still queued, and
      only one of these. */
  lemma FatesPartition<T>(items: seq<T>, fates: seq<Fate>, x: T)
    requires |fates| <= |items|
    ensures Occurrences(items, x)
         == Occurrences(WithFate(items, fates, Retrieved), x) + Occurrences(WithFate(items, fates, Dropped), x)
          + Occurrences(WithFate(items, fates, Cleared), x) + Occurrences(items[|fates|..], x)
  {
    PrefixPartition(items, fates, x);
    OccurrencesAppend(items[..|fates|], items[|fates|..], x);
    assert items == items[..|fates|] + items[|fates|..];
  }

  lemma {:induction false} PrefixPartition<T>(items: seq<T>, fates: seq<Fate>, x: T)
    requires |fates| <= |items|
    ensures Occurrences(items[..|fates|], x)
         == Occurrences(WithFate(items, fates, Retrieved), x) + Occurrences(WithFate(items, fates, Dropped), x)
          + Occurrences(WithFate(items, fates, Cleared), x)
    decreases |fates|
  {
    if fates != [] {
      var n := |fates| - 1;
      PrefixPartition(items, fates[..n], x);
      LastFate(items, fates, Retrieved, x);
      LastFate(items, fates, Dropped, x);
      LastFate(items, fates, Cleared, x);
      LastOccurrence(items, n, x);
    }
  }

  lemma LastOccurrence<T>(s: seq<T>, n: nat, x: T)
    requires n < |s|
    ensures Occurrences(s[..n + 1], x) == Occurrences(s[..n], x) + if s[n] == x then 1 else 0
  {
    assert s[..n + 1][..n] == s[..n];
  }

  lemma LastFate<T>(items: seq<T>, fates: seq<Fate>, f: Fate, x: T)
    requires 0 < |fates| <= |items|
    ensures Occurrences(WithFate(items, fates, f), x) == Occurrences(WithFate(items, fates[..|fates| - 1], f), x)
            + (if fates[|fates| - 1] == f && items[|fates| - 1] == x then 1 else 0)
  {
    var before := WithFate(items, fates[..|fates| - 1], f);
    if fates[|fates| - 1] == f {
      assert (before + [items[|fates| - 1]])[..|before|] == before;
    } else {
      assert before + [] == before;
    }
  }

  /** The loop of RetrieveAll, from both ends of the slice towards the middle. */
  method OldestFirst<T>(slice: array<T>)
    modifies slice
    ensures slice[..] == Reversed(old(slice[..]))
  {
    ghost var was := slice[..];
    var i, j := 0, slice.Length - 1;
    while i < j
      invariant 0 <= i <= j + 1 && i + j == slice.Length - 1
      invariant forall k :: i <= k <= j ==> slice[k] == was[k]
      invariant forall k :: 0 <= k < i ==> slice[k] == was[slice.Length - 1 - k]
      invariant forall k :: j < k < slice.Length ==> slice[k] == was[slice.Length - 1 - k]
    {
      slice[i], slice[j] := slice[j], slice[i];
      i, j := i + 1, j - 1;
    }
    IsReversed(slice[..], was);
  }

  lemma IsReversed<T>(s: seq<T>, was: seq<T>)
    requires |s| == |was| && forall k :: 0 <= k < |s| ==> s[k] == was[|s| - 1 - k]
    ensures s == Reversed(was)
  {
  }

  /** The queue is a slice of its own by then. */
  method SliceOldestFirst<T>(queue: seq<T>) returns (items: seq<T>)
    ensures items == Reversed(queue)
  {
    var slice := new T[|queue|](i requires 0 <= i < |queue| => queue[i]);
    assert slice[..] == queue;
    OldestFirst(slice);
    items := slice[..];
  }

  // --------------------------------------------------------------- the mailbox

  class Mailbox<T> {
    var queue: seq<T>
    var queueLen: int
    var notify: bool
    const capacity: nat
    const zero: T

    ghost var delivered: seq<T>
    ghost var fates: seq<Fate>
    /** What the consumers were given so far. */
    ghost var taken: seq<T>

    ghost predicate Valid()
      reads this
    {
      && queueLen == |queue|
      && (capacity > 0 ==> |queue| <= capacity)
      && |fates| <= |delivered|
      && Reversed(queue) == delivered[|fates|..]
      && taken == WithFate(delivered, fates, Retrieved)
    }

    /** The items still queued, oldest first. */
    ghost function Contents(): seq<T>
      reads this
    {
      Reversed(queue)
    }

    constructor (capacity: nat, zero: T)
      ensures Valid() && Contents() == [] && !notify && this.capacity == capacity && this.zero == zero
      ensures delivered == [] && fates == [] && taken == []
    {
      this.capacity, this.zero := capacity, zero;
      queue, queueLen, notify := [], 0, false;
      delivered, fates, taken := [], [], [];
    }

    method Deliver(x: T) returns (wasOverCapacity: bool)
      requires Valid()
      modifies this
      ensures Valid() && notify && delivered == old(delivered) + [x] && taken == old(taken)
      ensures Contents() == Newest(old(Contents()) + [x], capacity)
      ensures wasOverCapacity <==> 0 < capacity == |old(Contents())|
      ensures fates == old(fates) + if wasOverCapacity then [Dropped] else []
    {
      DeliveredKeepsNewest(queue, delivered, fates, x, capacity);
      delivered := delivered + [x];
      queue := [x] + queue;
      if |queue| > capacity && capacity > 0 {
        queue := queue[..|queue| - 1];
        wasOverCapacity := true;
        fates := fates + [Dropped];
      } else {
        wasOverCapacity := false;
        queueLen := queueLen + 1;
      }
      notify := true;
    }

    method Retrieve() returns (t: T, ok: bool)
      requires Valid()
      modifies this
      ensures Valid() && notify == old(notify) && delivered == old(delivered)
      ensures ok <==> old(Contents()) != []
      ensures ok ==> t == old(Contents())[0] && Contents() == old(Contents())[1..] && fates == old(fates) + [Retrieved]
      ensures !ok ==> t == zero && Contents() == [] && fates == old(fates)
      ensures taken == old(taken) + if ok then [t] else []
    {
      if |queue| == 0 {
        return zero, false;
      }
      t := queue[|queue| - 1];
      queue := queue[..|queue| - 1];
      queueLen := queueLen - 1;
      ok := true;
      assert delivered[|fates|] == t;
      OneMoreFate(delivered, fates, Retrieved);
      fates, taken := fates + [Retrieved], taken + [t];
    }

    /** All items in the order of delivery; the slice is reversed in place. */
    method RetrieveAll() returns (items: seq<T>)
      requires Valid()
      modifies this
      ensures Valid() && notify == old(notify) && delivered == old(delivered)
      ensures items == old(Contents()) && Contents() == []
      ensures taken == old(taken) + items
      ensures fates == old(fates) + seq(|items|, _ => Retrieved)
    {
      items := SliceOldestFirst(queue);
      AllRetrieved(delivered, fates);
      fates, taken := fates + seq(|queue|, _ => Retrieved), taken + items;
      queue, queueLen := [], 0;
    }

    method RetrieveLatestAndClear() returns (t: T)
      requires Valid()
      modifies this
      ensures Valid() && notify == old(notify) && delivered == old(delivered)
      ensures Contents() == []
      ensures var was := old(Contents());
        if was == [] then t == zero && fates == old(fates) && taken == old(taken)
        else t == was[|was| - 1] && taken == old(taken) + [t]
             && fates == old(fates) + seq(|was| - 1, _ => Cleared) + [Retrieved]
    {
      if |queue| == 0 {
        return zero;
      }
      t := queue[0];
      ManyMoreFates(delivered, fates, Cleared, |queue| - 1);
      ghost var cleared := fates + seq(|queue| - 1, _ => Cleared);
      OneMoreFate(delivered, cleared, Retrieved);
      assert delivered[|cleared|] == t;
      fates, taken := cleared + [Retrieved], taken + [t];
      queue, queueLen := [], 0;
    }
  }

  lemma OneMoreFate<T>(items: seq<T>, fates: seq<Fate>, f: Fate)
    requires |fates| < |items|
    ensures forall g :: WithFate(items, fates + [f], g) == WithFate(items, fates, g) + if f == g then [items[|fates|]] else []
  {
  }

  /** A delivery appends to what is queued; where that is one too many, the oldest is dropped. */
  lemma DeliveredKeepsNewest<T>(queue: seq<T>, delivered: seq<T>, fates: seq<Fate>, x: T, capacity: nat)
    requires |fates| <= |delivered| && Reversed(queue) == delivered[|fates|..] && (capacity > 0 ==> |queue| <= capacity)
    ensures var more, kept := delivered + [x], Newest(Reversed(queue) + [x], capacity);
            if capacity > 0 && |queue| + 1 > capacity then
              && Reversed(([x] + queue)[..|queue|]) == kept == more[|fates| + 1..]
              && WithFate(more, fates + [Dropped], Retrieved) == WithFate(delivered, fates, Retrieved)
            else
              && Reversed([x] + queue) == kept == more[|fates|..]
              && WithFate(more, fates, Retrieved) == WithFate(delivered, fates, Retrieved)
  {
    Delivered(delivered, fates, x);
    ReversedAfterDeliver(queue, x);
    OneMoreFate(delivered + [x], fates, Dropped);
    var more := delivered + [x];
    assert more[|fates|..][1..] == more[|fates| + 1..];
  }

  lemma {:induction false} ManyMoreFates<T>(items: seq<T>, fates: seq<Fate>, f: Fate, n: nat)
    requires |fates| + n <= |items|
    ensures forall g :: WithFate(items, fates + seq(n, _ => f), g)
                     == WithFate(items, fates, g) + if f == g then items[|fates|..|fates| + n] else []
    decreases n
  {
    if n == 0 {
      assert fates + seq(0, _ => f) == fates;
    } else {
      ManyMoreFates(items, fates, f, n - 1);
      var shorter := fates + seq(n - 1, _ => f);
      OneMoreFate(items, shorter, f);
      assert shorter + [f] == fates + seq(n, _ => f);
      assert items[|fates|..|fates| + n] == items[|fates|..|fates| + n - 1] + [items[|fates| + n - 1]];
    }
  }

  lemma AllRetrieved<T>(items: seq<T>, fates: seq<Fate>)
    requires |fates| <= |items|
    ensures var all := fates + seq(|items| - |fates|, _ => Retrieved);
            |all| == |items| && WithFate(items, all, Retrieved) == WithFate(items, fates, Retrieved) + items[|fates|..]
  {
    ManyMoreFates(items, fates, Retrieved, |items| - |fates|);
    assert items[|fates|..|items|] == items[|fates|..];
  }

  lemma ReversedAfterDeliver<T>(queue: seq<T>, x: T)
    ensures Reversed([x] + queue) == Reversed(queue) + [x]
    ensures Reversed(([x] + queue)[..|queue|]) == (Reversed(queue) + [x])[1..]
  {
  }

  lemma Delivered<T>(items: seq<T>, fates: seq<Fate>, x: T)
    requires |fates| <= |items|
    ensures (items + [x])[|fates|..] == items[|fates|..] + [x]
    ensures WithFate(items + [x], fates, Retrieved) == WithFate(items, fates, Retrieved)
  {
  }

  // ------------------------------------------------------- waking the consumer

  /** A consumer that waits for the notification and then retrieves until nothing is
      left, or takes the latest and clears, before it waits again. */
  datatype Consumer = Waiting | Draining | Gone

  datatype Shared<T> = Shared(contents: seq<T>, capacity: nat, notify: bool, consumer: Consumer)

  datatype Event<T> = Delivers(x: T) | Wakes | RetrievesOne | FindsEmpty | TakesLatest | Quits

  predicate Enabled<T>(s: Shared<T>, e: Event<T>) {
    match e
    case Delivers(_) => true
    case Wakes => s.consumer.Waiting? && s.notify
    case RetrievesOne => s.consumer.Draining? && s.contents != []
    case FindsEmpty => s.consumer.Draining? && s.contents == []
    case TakesLatest => s.consumer.Draining?
    case Quits => !s.consumer.Gone?
  }

  function Apply<T>(s: Shared<T>, e: Event<T>): Shared<T>
    requires Enabled(s, e)
  {
    match e
    case Delivers(x) => s.(contents := Newest(s.contents + [x], s.capacity), notify := true)
    case Wakes => s.(notify := false, consumer := Draining)
    case RetrievesOne => s.(contents := s.contents[1..])
    case FindsEmpty => s.(consumer := Waiting)
    case TakesLatest => s.(contents := [], consumer := Waiting)
    case Quits => s.(consumer := Gone)
  }

  ghost predicate IsRun<T>(states: seq<Shared<T>>, events: seq<Event<T>>) {
    && |states| == |events| + 1
    && states[0].contents == [] && states[0].consumer.Waiting?
    && forall i :: 0 <= i < |events| ==> Enabled(states[i], events[i]) && states[i + 1] == Apply(states[i], events[i])
  }

  /** However deliveries and retrievals interleave, no wake-up is lost: whenever the
      consumer waits and the queue is not empty, the notification is there. */
  lemma {:induction false} NoLostWakeUp<T>(states: seq<Shared<T>>, events: seq<Event<T>>, n: nat)
    requires IsRun(states, events) && n < |states|
    ensures states[n].consumer.Waiting? && states[n].contents != [] ==> states[n].notify
  {
    if n > 0 {
      NoLostWakeUp(states, events, n - 1);
      assert states[n - 1 + 1] == Apply(states[n - 1], events[n - 1]);
    }
  }
}
