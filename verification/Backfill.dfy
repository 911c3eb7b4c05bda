/** Backfilling along parent hashes (Backfill, backfill and fetchAndSaveHead in
    common/headtracker/head_tracker.go), on a well-formed chain.

    The head saver follows the contract of common/types/head_tracker.go: Save keeps
    a head, Chain finds it by its hash. The listener may save heads of its own
    before any of these calls. */
module Backfill {
  import opened Options

  datatype Block = Block(number: int, hash: int, parentHash: int)

  const TWO_63: int := 0x8000_0000_0000_0000
  const TWO_64: int := 0x1_0000_0000_0000_0000

  type uint = x: int | 0 <= x < TWO_64
  type int64 = x: int | -TWO_63 <= x < TWO_63

  /** Conversion to int64, and the result of int64 arithmetic. */
  function Wrap(x: int): int64 {
    var r := x % TWO_64;
    if r < TWO_63 then r else r - TWO_64
  }

  /** The height down to which heads are wanted; depth 0 never gets here. */
  function BaseHeight(number: int64, depth: uint): int64 {
    var baseHeight := Wrap(number - Wrap((depth - 1) % TWO_64));
    if baseHeight < 0 then 0 else baseHeight
  }

  /** The arithmetic is exact for all but absurd depths. */
  lemma BaseHeightIsExactIff(number: int64, depth: uint)
    requires 0 <= number && 0 < depth
    ensures BaseHeight(number, depth) == (if number < depth - 1 then 0 else number - (depth - 1)) <==> depth - 1 <= number + TWO_63
  {
  }

  /** With the largest depth the base lies above the head: nothing would be fetched. */
  lemma AbsurdDepthExample()
    ensures BaseHeight(100, 0xFFFF_FFFF_FFFF_FFFF) == 102
  {
  }

  // -------------------------------------------------------------------- chain

  ghost predicate WellFormed(world: map<int, Block>) {
    forall h :: h in world ==>
      && world[h].hash == h && 0 <= world[h].number < TWO_63
      && (world[h].number > 0 ==> world[h].parentHash in world && world[world[h].parentHash].number == world[h].number - 1)
  }

  ghost function Ancestor(world: map<int, Block>, b: Block, k: nat): (r: Block)
    requires WellFormed(world) && b.hash in world && world[b.hash] == b && k <= b.number
    ensures r.hash in world && world[r.hash] == r && r.number == b.number - k
    decreases k
  {
    if k == 0 then b else Ancestor(world, world[b.parentHash], k - 1)
  }

  lemma {:induction false} AncestorOfAncestor(world: map<int, Block>, b: Block, j: nat, k: nat)
    requires WellFormed(world) && b.hash in world && world[b.hash] == b && j + k <= b.number
    ensures Ancestor(world, Ancestor(world, b, j), k) == Ancestor(world, b, j + k)
    decreases j
  {
    if j > 0 {
      AncestorOfAncestor(world, world[b.parentHash], j - 1, k);
    }
  }

  /** A head with its linked parents, newest first. */
  ghost predicate LinkedChain(world: map<int, Block>, chain: seq<Block>) {
    && |chain| > 0
    && (forall k :: 0 <= k < |chain| ==> chain[k].hash in world && world[chain[k].hash] == chain[k])
    && forall k :: 0 <= k < |chain| - 1 ==> chain[k].number > 0 && chain[k].parentHash == chain[k + 1].hash
  }

  lemma {:induction false} ChainIsAncestors(world: map<int, Block>, chain: seq<Block>, k: nat)
    requires WellFormed(world) && LinkedChain(world, chain) && k < |chain|
    ensures k <= chain[0].number && chain[k] == Ancestor(world, chain[0], k)
    decreases k
  {
    if k > 0 {
      ChainIsAncestors(world, chain, k - 1);
      assert chain[k - 1].parentHash == chain[k - 1 + 1].hash;
      AncestorOfAncestor(world, chain[0], k - 1, 1);
      assert Ancestor(world, chain[k - 1], 1) == world[chain[k - 1].parentHash];
    }
  }

  ghost predicate SavedDownTo(world: map<int, Block>, saved: map<int, Block>, b: Block, base: int)
    requires WellFormed(world) && b.hash in world && world[b.hash] == b
  {
    forall k: nat :: k <= b.number && base <= b.number - k ==> Ancestor(world, b, k).hash in saved
  }

  // ------------------------------------------------------------------ tracker

  datatype Error = FetchFailed | NilHead | SaveFailed

  datatype Environment = Environment(
    fetchFails: nat -> bool, saveFails: nat -> bool, cancelled: nat -> bool, listenerSaves: nat -> set<int>)

  class HeadTracker {
    /** The blocks there are. */
    const world: map<int, Block>
    const env: Environment
    var saved: map<int, Block>
    var ticks: nat
    var done: bool
    /** The hashes asked of the node, and those the listener saved, since the start. */
    ghost var fetched: seq<int>
    ghost var byListener: set<int>

    ghost predicate Valid()
      reads this
    {
      WellFormed(world) && forall h :: h in saved ==> h in world && saved[h] == world[h]
    }

    constructor (world: map<int, Block>, env: Environment)
      requires WellFormed(world)
      ensures Valid() && this.world == world && saved == map[] && fetched == [] && byListener == {} && !done
    {
      this.world, this.env := world, env;
      saved, ticks, done, fetched, byListener := map[], 0, false, [], {};
    }

    /** Saved heads stay saved, and what else is saved came from the listener or was fetched. */
    ghost predicate Grew(was: map<int, Block>, others: set<int>, new_: seq<int>)
      reads this
    {
      && (forall h :: h in was ==> h in saved)
      && (forall h :: h in others ==> h in byListener)
      && (forall h :: h in saved ==> h in was || h in byListener || h in new_)
    }

    method Tick() returns (n: nat)
      requires Valid()
      modifies this
      ensures Valid() && n == old(ticks) && ticks == n + 1 && fetched == old(fetched)
      ensures Grew(old(saved), old(byListener), [])
    {
      n := ticks;
      var more := env.listenerSaves(n);
      saved := saved + map h | h in more && h in world :: world[h];
      byListener := byListener + more;
      done := done || env.cancelled(n);
      ticks := ticks + 1;
    }

    method Chain(hash: int) returns (head: Option<Block>)
      requires Valid()
      modifies this
      ensures Valid() && fetched == old(fetched) && Grew(old(saved), old(byListener), [])
      ensures head == if hash in saved then Some(world[hash]) else None
      ensures ticks == old(ticks) + 1
    {
      var _ := Tick();
      head := if hash in saved then Some(saved[hash]) else None;
    }

    method FetchAndSaveHead(hash: int) returns (err: Option<Error>, head: Block)
      requires Valid()
      modifies this
      ensures Valid() && Grew(old(saved), old(byListener), [hash])
      ensures fetched == old(fetched) + [hash]
      ensures err.None? ==> hash in saved && head == world[hash]
      ensures err == if env.fetchFails(old(ticks)) then Some(FetchFailed)
                     else if hash !in world then Some(NilHead)
                     else if env.saveFails(old(ticks) + 1) then Some(SaveFailed) else None
      ensures old(ticks) < ticks && (err == Some(SaveFailed) ==> old(ticks) + 1 < ticks)
    {
      fetched := fetched + [hash];
      var n := Tick();
      head := Block(0, 0, 0);
      if env.fetchFails(n) {
        return Some(FetchFailed), head;
      }
      if hash !in world {
        return Some(NilHead), head;
      }
      var m := Tick();
      if env.saveFails(m) {
        return Some(SaveFailed), head;
      }
      head := world[hash];
      saved := saved[hash := head];
      err := None;
    }

    /** The new hashes lie on the path below `head` down to `base`, each lower than the one
        before, and none was saved at the start. */
    ghost predicate FetchedMissing(head: Block, base: int, was: map<int, Block>, new_: seq<int>) {
      && (forall i :: 0 <= i < |new_| ==> new_[i] in world && new_[i] !in was && base <= world[new_[i]].number < head.number)
      && (forall i, j :: 0 <= i < j < |new_| ==> world[new_[j]].number < world[new_[i]].number)
      && (forall i :: 0 <= i < |new_| ==> OnPath(head, new_[i]))
    }

    ghost predicate OnPath(head: Block, hash: int) {
      WellFormed(world) && head.hash in world && world[head.hash] == head && hash in world
      && 0 <= head.number - world[hash].number && 0 <= world[hash].number
      && Ancestor(world, head, head.number - world[hash].number).hash == hash
    }

    lemma ParentIsOnPath(start: Block, head: Block)
      requires WellFormed(world) && OnPath(start, head.hash) && world[head.hash] == head && head.number > 0
      ensures OnPath(start, head.parentHash) && world[head.parentHash].number == head.number - 1
    {
      AncestorOfAncestor(world, start, start.number - head.number, 1);
      assert Ancestor(world, head, 1) == world[head.parentHash];
    }

    lemma OneMoreSaved(start: Block, head: Block, was: map<int, Block>)
      requires Valid() && OnPath(start, head.hash) && world[head.hash] == head && head.hash in saved
      requires SavedDownTo(world, was, start, head.number + 1) && forall h :: h in was ==> h in saved
      ensures SavedDownTo(world, saved, start, head.number)
    {
    }

    lemma OneMoreFetched(start: Block, hash: int, was: map<int, Block>, new_: seq<int>)
      requires WellFormed(world) && OnPath(start, hash) && hash !in was && world[hash].number < start.number
      requires FetchedMissing(start, world[hash].number + 1, was, new_)
      ensures FetchedMissing(start, world[hash].number, was, new_ + [hash])
    {
    }

    /** A fetch or a save failed since the t-th moment; on a well-formed chain no head is nil. */
    ghost predicate Caused(err: Error, t: nat)
      reads this
    {
      match err
      case FetchFailed => exists n :: t <= n < ticks && env.fetchFails(n)
      case SaveFailed => exists n :: t <= n < ticks && env.saveFails(n)
      case NilHead => false
    }

    /** The parent of a saved head: out of the saver, or else from the node. */
    method ParentOf(head: Block) returns (err: Option<Error>, parent: Block, isNew: bool)
      requires Valid()
      modifies this
      ensures Valid()
      ensures var new_ := if isNew then [head.parentHash] else [];
              fetched == old(fetched) + new_ && Grew(old(saved), old(byListener), new_)
      ensures isNew ==> head.parentHash !in old(saved)
      ensures !isNew ==> err.None?
      ensures err.None? ==> head.parentHash in saved && parent == world[head.parentHash]
      ensures old(ticks) < ticks && (head.parentHash in world && err.Some? ==> Caused(err.value, old(ticks)))
    {
      var existingHead := Chain(head.parentHash);
      if existingHead.Some? {
        return None, existingHead.value, false;
      }
      ghost var n := ticks;
      err, parent := FetchAndSaveHead(head.parentHash);
      isNew := true;
      assert err == Some(FetchFailed) ==> env.fetchFails(n);
      assert err == Some(SaveFailed) ==> env.saveFails(n + 1);
    }

    /** Everything on the path from `start` to `head` is saved, and what was fetched for it
        had been missing. */
    ghost predicate CameTo(start: Block, head: Block, was: map<int, Block>, new_: seq<int>)
      reads this
    {
      && Valid()
      && head.hash in saved && world[head.hash] == head && OnPath(start, head.hash)
      && SavedDownTo(world, saved, start, head.number)
      && FetchedMissing(start, head.number, was, new_)
    }

    /** Fetches all missing heads from just below `head` to the base height. The context
        is looked at only after a fetch. */
    method BackfillFrom(head0: Block, baseHeight: int) returns (err: Option<Error>, ghost new_: seq<int>)
      requires Valid() && head0.hash in saved && saved[head0.hash] == head0 && 0 <= baseHeight
      modifies this
      ensures Valid() && Grew(old(saved), old(byListener), new_) && fetched == old(fetched) + new_
      ensures err.None? && !done ==> SavedDownTo(world, saved, head0, baseHeight)
      ensures FetchedMissing(head0, baseHeight, old(saved), new_)
      ensures err.Some? ==> Caused(err.value, old(ticks))
    {
      new_ := [];
      var head := head0;
      err := None;
      if head.number <= baseHeight {
        assert SavedDownTo(world, saved, head0, baseHeight);
        return;
      }
      var i := head.number - 1;
      while i >= baseHeight
        invariant baseHeight - 1 <= i < head0.number && head.number == i + 1 && err.None?
        invariant Grew(old(saved), old(byListener), new_) && CameTo(head0, head, old(saved), new_)
        invariant fetched == old(fetched) + new_ && old(ticks) <= ticks
        decreases i
      {
        ghost var before, was := saved, new_;
        ParentIsOnPath(head0, head);
        ghost var parentHash := head.parentHash;
        var isNew;
        err, head, isNew := ParentOf(head);
        if isNew {
          OneMoreFetched(head0, parentHash, old(saved), was);
          new_ := was + [parentHash];
          if done {
            break;
          } else if err.Some? {
            return;
          }
        }
        OneMoreSaved(head0, head, before);
        i := i - 1;
      }
    }

    /** Backfill: nothing to do when the chain is long enough already. `chain` is the head
        with its linked parents, all of them saved. When it ends without an error
        and was not cancelled, a linked path of saved heads runs from the head
        down to the wanted height. */
    method Backfill(chain: seq<Block>, depth: uint) returns (err: Option<Error>, ghost new_: seq<int>)
      requires Valid() && LinkedChain(world, chain)
      requires forall k :: 0 <= k < |chain| ==> chain[k].hash in saved
      modifies this
      ensures Valid() && Grew(old(saved), old(byListener), new_) && fetched == old(fetched) + new_
      ensures depth - 1 <= chain[0].number + TWO_63 ==>
        && (err.None? && !done ==> SavedDownTo(world, saved, chain[0], chain[0].number - depth + 1))
        && FetchedMissing(chain[|chain| - 1], if depth <= chain[0].number then chain[0].number - depth + 1 else 0, old(saved), new_)
      ensures depth <= |chain| ==> err.None? && saved == old(saved) && new_ == []
      ensures err.Some? ==> Caused(err.value, old(ticks))
    {
      LinkedIsSaved(chain);
      if |chain| >= depth {
        return None, [];
      }
      BaseHeightIsExactIff(chain[0].number, depth);
      var baseHeight := BaseHeight(chain[0].number, depth);
      err, new_ := BackfillFrom(chain[|chain| - 1], baseHeight);
      if err.None? && !done {
        PathThroughEarliest(chain, baseHeight);
      }
    }

    lemma LinkedIsSaved(chain: seq<Block>)
      requires Valid() && LinkedChain(world, chain) && forall k :: 0 <= k < |chain| ==> chain[k].hash in saved
      ensures SavedDownTo(world, saved, chain[0], chain[|chain| - 1].number)
      ensures chain[0].number - chain[|chain| - 1].number == |chain| - 1
    {
      ChainIsAncestors(world, chain, |chain| - 1);
      forall k: nat | k <= chain[0].number && chain[|chain| - 1].number <= chain[0].number - k
        ensures Ancestor(world, chain[0], k).hash in saved
      {
        ChainIsAncestors(world, chain, k);
      }
    }

    lemma PathThroughEarliest(chain: seq<Block>, base: int)
      requires Valid() && LinkedChain(world, chain) && 0 <= base
      requires forall k :: 0 <= k < |chain| ==> chain[k].hash in saved
      requires SavedDownTo(world, saved, chain[|chain| - 1], base)
      ensures SavedDownTo(world, saved, chain[0], base)
    {
      LinkedIsSaved(chain);
      var n := |chain| - 1;
      ChainIsAncestors(world, chain, n);
      forall k: nat | k <= chain[0].number && base <= chain[0].number - k
        ensures Ancestor(world, chain[0], k).hash in saved
      {
        if k > n {
          AncestorOfAncestor(world, chain[0], n, k - n);
        }
      }
    }
  }
}
