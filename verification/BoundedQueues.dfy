/** BoundedQueue and BoundedPriorityQueue (core/utils/utils.go), for capacities that are
    not negative. Each method runs under the queue's mutex. */
module BoundedQueues {

  /** Of everything added, the newest `capacity` items, without the first `taken`. */
  function Kept<T>(added: seq<T>, capacity: nat, taken: nat): (r: seq<T>)
    requires taken <= |added|
    ensures |r| == if |added| - taken <= capacity then |added| - taken else capacity
  {
    if |added| - taken <= capacity then added[taken..] else added[|added| - capacity..]
  }

  /** An addition pushes out the oldest item exactly when the queue is full. */
  lemma KeptAfterAdd<T>(added: seq<T>, capacity: nat, taken: nat, x: T)
    requires taken <= |added|
    ensures var was, now := Kept(added, capacity, taken), Kept(added + [x], capacity, taken);
            now == if |was| < capacity then was + [x] else (was + [x])[1..]
  {
  }

  class BoundedQueue<T> {
    const capacity: nat
    const zero: T
    var items: seq<T>
    /** Everything ever added, and how far the last taken item was into it. */
    ghost var added: seq<T>
    ghost var taken: nat

    ghost predicate Valid()
      reads this
    {
      taken <= |added| && items == Kept(added, capacity, taken)
    }

    constructor (capacity: nat, zero: T)
      ensures Valid() && this.capacity == capacity && this.zero == zero
      ensures items == [] && added == [] && taken == 0
    {
      this.capacity, this.zero := capacity, zero;
      items, added, taken := [], [], 0;
    }

    method Add(x: T)
      requires Valid()
      modifies this
      ensures Valid() && added == old(added) + [x] && taken == old(taken)
    {
      KeptAfterAdd(added, capacity, taken, x);
      added := added + [x];
      items := items + [x];
      if |items| > capacity {
        var excess := |items| - capacity;
        items := items[excess..];
      }
    }

    /** The oldest item, or the zero value of its type when there is none. */
    method Take() returns (t: T)
      requires Valid()
      modifies this
      ensures Valid() && added == old(added)
      ensures if old(items) == [] then t == zero && items == [] && taken == old(taken)
              else t == old(items)[0] && items == old(items)[1..] && taken == |added| - |items|
    {
      if |items| == 0 {
        return zero;
      }
      t := items[0];
      items := items[1..];
      taken := |added| - |items|;
    }

    predicate Empty()
      reads this
    {
      |items| == 0
    }

    predicate Full()
      reads this
    {
      |items| >= capacity
    }

    lemma FullIffAddEvicts(x: T)
      requires Valid()
      ensures Full() <==> |Kept(added + [x], capacity, taken)| <= |items|
    {
    }
  }

  ghost predicate IsNew<T>(queue: BoundedQueue<T>, capacity: nat, zero: T)
    reads queue
  {
    queue.capacity == capacity && queue.zero == zero && queue.items == [] && queue.added == [] && queue.taken == 0
  }

  // ---------------------------------------------------------------- priorities

  ghost predicate Ascending(s: seq<int>) {
    forall i, j :: 0 <= i < j < |s| ==> s[i] < s[j]
  }

  /** The list holds exactly these priorities. */
  ghost predicate Covers(s: seq<int>, keys: set<int>) {
    && (forall k :: 0 <= k < |s| ==> s[k] in keys)
    && (forall p :: p in keys ==> exists k :: 0 <= k < |s| && s[k] == p)
  }

  /** sort.Slice on distinct priorities. */
  method SortPriorities(s: seq<int>) returns (t: seq<int>)
    requires forall i, j :: 0 <= i < j < |s| ==> s[i] != s[j]
    ensures Ascending(t) && multiset(t) == multiset(s)
  {
    t := [];
    for i := 0 to |s|
      invariant Ascending(t) && multiset(t) == multiset(s[..i])
    {
      assert s[..i + 1] == s[..i] + [s[i]];
      assert s[i] !in multiset(s[..i]);
      t := Insert(t, s[i]);
    }
    assert s[..|s|] == s;
  }

  method Insert(t: seq<int>, x: int) returns (r: seq<int>)
    requires Ascending(t) && x !in multiset(t)
    ensures Ascending(r) && multiset(r) == multiset(t) + multiset{x}
  {
    var n := 0;
    while n < |t| && t[n] < x
      invariant 0 <= n <= |t|
      invariant forall j :: 0 <= j < n ==> t[j] < x
    {
      n := n + 1;
    }
    assert n < |t| ==> t[n] in multiset(t);
    r := t[..n] + [x] + t[n..];
    InsertAscends(t, x, n);
    InsertAdds(t, x, n);
  }

  lemma InsertAscends(t: seq<int>, x: int, n: nat)
    requires Ascending(t) && n <= |t|
    requires (n > 0 ==> t[n - 1] < x) && (n < |t| ==> x < t[n])
    ensures Ascending(t[..n] + [x] + t[n..])
  {
  }

  lemma InsertAdds(t: seq<int>, x: int, n: nat)
    requires n <= |t|
    ensures multiset(t[..n] + [x] + t[n..]) == multiset(t) + multiset{x}
  {
    assert t == t[..n] + t[n..];
  }

  lemma PermutationCovers(s: seq<int>, t: seq<int>, keys: set<int>)
    requires Covers(s, keys) && multiset(t) == multiset(s)
    ensures Covers(t, keys)
  {
    forall k | 0 <= k < |t|
      ensures t[k] in keys
    {
      assert t[k] in multiset(s);
      var l :| 0 <= l < |s| && s[l] == t[k];
    }
    forall p | p in keys
      ensures exists k :: 0 <= k < |t| && t[k] == p
    {
      var l :| 0 <= l < |s| && s[l] == p;
      assert s[l] in multiset(t);
    }
  }

  /** The priorities in the order in which the map is walked. */
  method Walk(keys: set<int>) returns (found: seq<int>)
    ensures Covers(found, keys)
    ensures forall i, j :: 0 <= i < j < |found| ==> found[i] != found[j]
  {
    found := [];
    var rest := keys;
    while exists p :: p in rest
      invariant rest <= keys
      invariant forall k :: 0 <= k < |found| ==> found[k] in keys && found[k] !in rest
      invariant forall p :: p in keys && p !in rest ==> exists k :: 0 <= k < |found| && found[k] == p
      invariant forall i, j :: 0 <= i < j < |found| ==> found[i] != found[j]
      decreases rest
    {
      var p :| p in rest;
      ghost var was := found;
      found := found + [p];
      assert found[|was|] == p && forall k :: 0 <= k < |was| ==> found[k] == was[k];
      rest := rest - {p};
    }
  }

  /** One empty queue per priority, each a different object. */
  method NewQueues<T>(capacities: map<int, nat>, found: seq<int>, zero: T)
    returns (built: map<int, BoundedQueue<T>>, ghost repr: set<BoundedQueue<T>>)
    requires Covers(found, capacities.Keys)
    ensures fresh(repr) && built.Keys == capacities.Keys
    ensures forall p :: p in built ==> built[p] in repr && IsNew(built[p], capacities[p], zero)
    ensures forall p, q :: p in built && q in built && p != q ==> built[p] != built[q]
  {
    built, repr := map[], {};
    for i := 0 to |found|
      invariant fresh(repr)
      invariant built.Keys <= capacities.Keys && forall k :: 0 <= k < i ==> found[k] in built.Keys
      invariant forall p :: p in built ==> built[p] in repr && IsNew(built[p], capacities[p], zero)
      invariant forall p, q :: p in built && q in built && p != q ==> built[p] != built[q]
    {
      assert found[i] in capacities.Keys;
      var queue := new BoundedQueue<T>(capacities[found[i]], zero);
      built := built[found[i] := queue];
      repr := repr + {queue};
    }
    forall p | p in capacities.Keys
      ensures p in built.Keys
    {
      var k :| 0 <= k < |found| && found[k] == p;
    }
  }

  class BoundedPriorityQueue<T> {
    const queues: map<int, BoundedQueue<T>>
    const priorities: seq<int>
    const zero: T
    ghost const Repr: set<BoundedQueue<T>>

    ghost predicate Valid()
      reads Repr
    {
      && Ascending(priorities) && Covers(priorities, queues.Keys)
      && (forall p :: p in queues ==> queues[p] in Repr)
      && (forall p :: p in queues ==> queues[p].zero == zero && queues[p].Valid())
      && (forall p, q :: p in queues && q in queues && p != q ==> queues[p] != queues[q])
    }

    constructor (capacities: map<int, nat>, zero: T)
      ensures Valid() && queues.Keys == capacities.Keys && this.zero == zero
      ensures fresh(Repr) && forall p :: p in queues ==> IsNew(queues[p], capacities[p], zero)
    {
      var found := Walk(capacities.Keys);
      var built;
      ghost var repr;
      built, repr := NewQueues(capacities, found, zero);
      var sorted := SortPriorities(found);
      PermutationCovers(found, sorted, capacities.Keys);
      this.queues, this.priorities, this.zero, this.Repr := built, sorted, zero, repr;
    }

    /** An unknown priority makes the source panic. The other sub-queues stay as they are. */
    method Add(priority: int, x: T) returns (panics: bool)
      requires Valid()
      modifies Repr
      ensures Valid()
      ensures panics <==> priority !in queues
      ensures !panics ==> queues[priority].added == old(queues[priority].added) + [x] && queues[priority].taken == old(queues[priority].taken)
      ensures forall p :: p in queues && p != priority ==>
        && queues[p].items == old(queues[p].items) && queues[p].added == old(queues[p].added) && queues[p].taken == old(queues[p].taken)
    {
      if priority !in queues {
        return true;
      }
      queues[priority].Add(x);
      panics := false;
    }

    /** The oldest item of the smallest priority that has any; only that sub-queue changes. */
    method Take() returns (t: T, ghost from: int)
      requires Valid()
      modifies Repr
      ensures Valid()
      ensures (forall p :: p in queues ==> old(queues[p].items) == []) ==>
        t == zero && forall p :: p in queues ==> queues[p].items == []
      ensures (exists p :: p in queues && old(queues[p].items) != []) ==>
        && from in queues && old(queues[from].items) != []
        && (forall p :: p in queues && p < from ==> old(queues[p].items) == [])
        && t == old(queues[from].items)[0] && queues[from].items == old(queues[from].items)[1..]
        && forall p :: p in queues && p != from ==> queues[p].items == old(queues[p].items)
      ensures forall p :: p in queues ==> queues[p].added == old(queues[p].added)
    {
      from := 0;
      var i := FirstNonEmpty();
      if i == |priorities| {
        return zero, from;
      }
      from := priorities[i];
      t := queues[priorities[i]].Take();
    }

    /** The loop of Take: the first priority with an item, or one past the last. */
    method FirstNonEmpty() returns (i: nat)
      requires Valid()
      ensures i <= |priorities|
      ensures i < |priorities| ==> priorities[i] in queues && queues[priorities[i]].items != []
      ensures forall p :: p in queues ==> queues[p].items == [] || (i < |priorities| && priorities[i] <= p)
    {
      i := 0;
      while i < |priorities| && queues[priorities[i]].Empty()
        invariant 0 <= i <= |priorities|
        invariant forall k :: 0 <= k < i ==> queues[priorities[k]].items == []
      {
        i := i + 1;
      }
      forall p | p in queues
        ensures queues[p].items == [] || (i < |priorities| && priorities[i] <= p)
      {
        var k :| 0 <= k < |priorities| && priorities[k] == p;
      }
    }

    method Empty() returns (empty: bool)
      requires Valid()
      ensures empty <==> forall p :: p in queues ==> queues[p].items == []
    {
      for i := 0 to |priorities|
        invariant forall k :: 0 <= k < i ==> queues[priorities[k]].items == []
      {
        assert priorities[i] in queues.Keys;
        if !queues[priorities[i]].Empty() {
          var p := priorities[i];
          assert p in queues && queues[p].items != [];
          return false;
        }
      }
      forall p | p in queues
        ensures queues[p].items == []
      {
        var k :| 0 <= k < |priorities| && priorities[k] == p;
      }
      empty := true;
    }
  }
}
