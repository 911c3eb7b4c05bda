/** The order in which the Confirmer rebroadcasts: the merge of the two queries in
    FindTxsRequiringRebroadcast (common/txmgr/confirmer.go). */
module RebroadcastQueue {
  import opened TxTypes

  /** A transaction with its attempts preloaded, the highest priced one first. */
  datatype Loaded = Loaded(tx: Tx, attempts: seq<Attempt>)

  function Seq(e: Loaded): int {
    if e.tx.sequence.Some? then e.tx.sequence.value else 0
  }

  ghost predicate DistinctIds(s: seq<Loaded>) {
    forall i, j :: 0 <= i < j < |s| ==> s[i].tx.id != s[j].tx.id
  }

  ghost predicate Sorted(s: seq<Loaded>) {
    forall i, j :: 0 <= i < j < |s| ==> Seq(s[i]) <= Seq(s[j])
  }

  ghost predicate HasId(s: seq<Loaded>, id: int) {
    exists k :: 0 <= k < |s| && s[k].tx.id == id
  }

  /** Everything either query found; where both found a transaction, the entry of
      the insufficient-funds query. */
  ghost predicate InUnion(insufficient: seq<Loaded>, bumps: seq<Loaded>, e: Loaded) {
    e in insufficient || (e in bumps && !HasId(insufficient, e.tx.id))
  }

  /** What is due, lowest sequences first: all of the union, or the `limit` lowest
      of it when there are more; 0 means no limit. */
  ghost predicate Merged(insufficient: seq<Loaded>, bumps: seq<Loaded>, limit: nat, etxs: seq<Loaded>) {
    && Sorted(etxs) && DistinctIds(etxs)
    && (forall e :: e in etxs ==> InUnion(insufficient, bumps, e))
    && (limit > 0 ==> |etxs| <= limit)
    && forall e | InUnion(insufficient, bumps, e) && e !in etxs ::
         0 < limit == |etxs| && forall f :: f in etxs ==> Seq(f) <= Seq(e)
  }

  method MergeForRebroadcast(insufficient: seq<Loaded>, bumps: seq<Loaded>, limit: nat) returns (etxs: seq<Loaded>)
    requires DistinctIds(insufficient) && DistinctIds(bumps)
    ensures Merged(insufficient, bumps, limit, etxs)
  {
    var seen: set<int> := {};
    etxs := [];
    for i := 0 to |insufficient|
      invariant etxs == insufficient[..i]
      invariant forall id :: id in seen <==> exists k :: 0 <= k < i && insufficient[k].tx.id == id
    {
      seen := seen + {insufficient[i].tx.id};
      etxs := etxs + [insufficient[i]];
    }
    assert insufficient[..|insufficient|] == insufficient;
    for i := 0 to |bumps|
      invariant DistinctIds(etxs)
      invariant forall e :: e in etxs <==> InUnion(insufficient, bumps[..i], e)
    {
      assert bumps[..i + 1] == bumps[..i] + [bumps[i]];
      if bumps[i].tx.id !in seen {
        assert !HasId(insufficient, bumps[i].tx.id);
        forall k | 0 <= k < |etxs|
          ensures etxs[k].tx.id != bumps[i].tx.id
        {
          assert InUnion(insufficient, bumps[..i], etxs[k]);
        }
        etxs := etxs + [bumps[i]];
      } else {
        assert HasId(insufficient, bumps[i].tx.id);
      }
    }
    assert bumps[..|bumps|] == bumps;
    ghost var union := etxs;
    etxs := SortBySequence(etxs);
    SortedAlike(union, etxs);
    ghost var sorted := etxs;
    assert forall e :: e in sorted <==> InUnion(insufficient, bumps, e);
    if limit > 0 && |etxs| > limit {
      etxs := etxs[..limit];
    }
    forall e | e in sorted && e !in etxs
      ensures 0 < limit == |etxs| && forall f :: f in etxs ==> Seq(f) <= Seq(e)
    {
      var k :| 0 <= k < |sorted| && sorted[k] == e;
      assert limit <= k;
    }
  }

  /** sort.Slice by sequence: some sorted permutation. */
  method SortBySequence(s: seq<Loaded>) returns (t: seq<Loaded>)
    ensures Sorted(t) && multiset(t) == multiset(s)
  {
    t := [];
    for i := 0 to |s|
      invariant Sorted(t) && multiset(t) == multiset(s[..i])
    {
      assert s[..i + 1] == s[..i] + [s[i]];
      t := Insert(t, s[i]);
    }
    assert s[..|s|] == s;
  }

  method Insert(t: seq<Loaded>, e: Loaded) returns (r: seq<Loaded>)
    requires Sorted(t)
    ensures Sorted(r) && multiset(r) == multiset(t + [e])
  {
    var k := |t|;
    while k > 0 && Seq(t[k - 1]) > Seq(e)
      invariant 0 <= k <= |t|
      invariant k < |t| ==> Seq(e) < Seq(t[k])
    {
      k := k - 1;
    }
    r := t[..k] + [e] + t[k..];
    InsertPermutes(t, e, k);
    InsertSorted(t, e, k);
  }

  lemma InsertPermutes(t: seq<Loaded>, e: Loaded, k: nat)
    requires k <= |t|
    ensures multiset(t[..k] + [e] + t[k..]) == multiset(t + [e])
  {
    assert t == t[..k] + t[k..];
  }

  lemma InsertSorted(t: seq<Loaded>, e: Loaded, k: nat)
    requires Sorted(t) && k <= |t|
    requires k > 0 ==> Seq(t[k - 1]) <= Seq(e)
    requires k < |t| ==> Seq(e) <= Seq(t[k])
    ensures Sorted(t[..k] + [e] + t[k..])
  {
  }

  lemma DistinctSurvivesPermutation(s: seq<Loaded>, t: seq<Loaded>)
    requires DistinctIds(s) && multiset(s) == multiset(t)
    ensures DistinctIds(t)
  {
    forall i, j | 0 <= i < j < |t|
      ensures t[i].tx.id != t[j].tx.id
    {
      assert t[i] in multiset(s) && t[j] in multiset(s);
      if t[i].tx.id == t[j].tx.id {
        var m :| 0 <= m < |s| && s[m] == t[i];
        var n :| 0 <= n < |s| && s[n] == t[j];
        assert t[i] == t[j];
        TwiceInMultiset(t, i, j);
        OnceInMultiset(s, m);
        assert false;
      }
    }
  }

  lemma SortedAlike(s: seq<Loaded>, t: seq<Loaded>)
    requires DistinctIds(s) && multiset(s) == multiset(t)
    ensures DistinctIds(t) && (forall e :: e in s <==> e in t) && |s| == |t|
  {
    DistinctSurvivesPermutation(s, t);
    assert forall e :: e in s <==> e in multiset(s);
    assert forall e :: e in t <==> e in multiset(t);
    assert |multiset(s)| == |multiset(t)|;
  }

  lemma TwiceInMultiset(t: seq<Loaded>, i: nat, j: nat)
    requires i < j < |t| && t[i] == t[j]
    ensures multiset(t)[t[i]] >= 2
  {
    assert t == t[..j] + [t[j]] + t[j + 1..];
    assert t[i] in t[..j];
  }

  lemma OnceInMultiset(s: seq<Loaded>, m: nat)
    requires DistinctIds(s) && m < |s|
    ensures multiset(s)[s[m]] == 1
  {
    assert s == s[..m] + [s[m]] + s[m + 1..];
    assert s[m] !in s[..m] && s[m] !in s[m + 1..];
  }
}
