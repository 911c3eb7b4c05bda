/** How rows come out of the store: identifiers in some order, and the attempts of one
    transaction with the dearest first. */
module AttemptListing {
  import opened TxTypes

  /** The TxAttempts field after LoadTxAttempts: every attempt once, dearest first. */
  ghost predicate Lists(list: seq<Attempt>, rows: map<int, Attempt>) {
    && (forall i :: 0 <= i < |list| ==> list[i].id in rows && rows[list[i].id] == list[i])
    && (forall a :: a in rows && rows[a].id == a ==> IsListed(list, a))
    && (forall i, j :: 0 <= i < j < |list| ==> list[i].id != list[j].id && list[j].fee <= list[i].fee)
  }

  ghost predicate IsListed(list: seq<Attempt>, a: int) { exists k :: 0 <= k < |list| && list[k].id == a }

  lemma ListedExists(list: seq<Attempt>, rows: map<int, Attempt>)
    requires Lists(list, rows)
    ensures |list| > 0 ==> exists a :: a in rows
  {
    if |list| > 0 {
      assert list[0].id in rows;
    }
  }

  method ListAttempts(rows: map<int, Attempt>) returns (list: seq<Attempt>)
    requires forall a :: a in rows ==> rows[a].id == a
    ensures Lists(list, rows)
  {
    list := [];
    var rest := rows.Keys;
    while exists id :: id in rest
      invariant rest <= rows.Keys
      invariant forall i :: 0 <= i < |list| ==> list[i].id in rows && list[i].id !in rest && rows[list[i].id] == list[i]
      invariant forall a :: a in rows && a !in rest ==> rows[a] in list
      invariant forall i, j :: 0 <= i < j < |list| ==> list[i].id != list[j].id && list[j].fee <= list[i].fee
      invariant forall i, a :: 0 <= i < |list| && a in rest ==> rows[a].fee <= list[i].fee
      decreases rest
    {
      DearestExists(rows, rest);
      assert exists k :: k in rest && IsDearestOf(rows, rest, k);
      var k :| k in rest && forall a :: a in rest ==> rows[a].fee <= rows[k].fee;
      ghost var was := list;
      list := list + [rows[k]];
      rest := rest - {k};
      assert forall x :: x in was ==> x in list;
      assert list[|was|] == rows[k];
    }
  }

  ghost predicate IsDearestOf(rows: map<int, Attempt>, ids: set<int>, k: int)
    requires ids <= rows.Keys
  {
    k in ids && forall a :: a in ids ==> rows[a].fee <= rows[k].fee
  }

  lemma {:induction false} DearestExists(rows: map<int, Attempt>, ids: set<int>)
    requires ids <= rows.Keys && exists id :: id in ids
    ensures exists k :: IsDearestOf(rows, ids, k)
    decreases ids
  {
    var one :| one in ids;
    var rest := ids - {one};
    if exists id :: id in rest {
      DearestExists(rows, rest);
      var k :| IsDearestOf(rows, rest, k);
      var best := if rows[k].fee < rows[one].fee then one else k;
      forall a | a in ids
        ensures rows[a].fee <= rows[best].fee
      {
        assert a == one || a in rest;
      }
      assert IsDearestOf(rows, ids, best);
    } else {
      forall a | a in ids
        ensures a == one
      {
        assert a !in rest;
      }
      assert IsDearestOf(rows, ids, one);
    }
  }

  method ListIds(ids: set<int>) returns (s: seq<int>)
    ensures forall k :: 0 <= k < |s| ==> s[k] in ids
    ensures forall id :: id in ids ==> exists k :: 0 <= k < |s| && s[k] == id
    ensures forall i, j :: 0 <= i < j < |s| ==> s[i] != s[j]
  {
    s := [];
    var rest := ids;
    while exists id :: id in rest
      invariant rest <= ids
      invariant forall k :: 0 <= k < |s| ==> s[k] in ids && s[k] !in rest
      invariant forall id :: id in ids && id !in rest ==> exists k :: 0 <= k < |s| && s[k] == id
      invariant forall i, j :: 0 <= i < j < |s| ==> s[i] != s[j]
      decreases rest
    {
      var id :| id in rest;
      ghost var was := s;
      s := s + [id];
      assert s[|was|] == id && forall k :: 0 <= k < |was| ==> s[k] == was[k];
      rest := rest - {id};
    }
  }
}
