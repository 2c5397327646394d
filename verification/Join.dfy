/** pairSnapshots: the map-and-delete join of the two listings, sorted by id
    (internal/reconciler/reconciler.go). */
module Join {
  import opened Wrappers
  import opened Tables
  import opened RuntimeMap
  import opened Decision

  // ---- The order on ids: cmp.Compare on strings ----

  predicate Before(a: string, b: string) {
    if b == "" then false
    else if a == "" then true
    else a[0] < b[0] || (a[0] == b[0] && Before(a[1..], b[1..]))
  }

  lemma {:induction false} BeforeIsTotal(a: string, b: string)
    ensures Before(a, b) || a == b || Before(b, a)
    ensures !(Before(a, b) && Before(b, a))
    ensures Before(a, b) ==> a != b
  {
    if a != "" && b != "" && a[0] == b[0] {
      BeforeIsTotal(a[1..], b[1..]);
      assert a == [a[0]] + a[1..] && b == [b[0]] + b[1..];
    }
  }

  lemma {:induction false} BeforeIsTransitive(a: string, b: string, c: string)
    requires Before(a, b) && Before(b, c)
    ensures Before(a, c)
  {
    if a != "" && b != "" && c != "" && a[0] == b[0] == c[0] {
      BeforeIsTransitive(a[1..], b[1..], c[1..]);
    }
  }

  // Up to k the two agree; there the first ends, or has the smaller character.
  predicate Decides(a: string, b: string, k: int) {
    0 <= k <= |a| && k < |b| && a[..k] == b[..k] && (k < |a| ==> a[k] < b[k])
  }

  lemma DecidesInTail(a: string, b: string, k: int)
    requires a != "" && b != "" && a[0] == b[0]
    ensures Decides(a[1..], b[1..], k) <==> 0 <= k && Decides(a, b, k + 1)
  {
    if 0 <= k < |a| && k < |b| - 1 {
      assert a[..k + 1] == [a[0]] + a[1..][..k] && b[..k + 1] == [b[0]] + b[1..][..k];
      assert a[1..][..k] == a[..k + 1][1..] && b[1..][..k] == b[..k + 1][1..];
    }
  }

  /** Ascending by characters: the first in which two ids differ decides, and a proper
      prefix comes first. */
  lemma {:induction false} BeforeIff(a: string, b: string)
    ensures Before(a, b) <==> exists k :: Decides(a, b, k)
  {
    if a == "" || b == "" {
      assert b != "" ==> Decides(a, b, 0);
    } else if a[0] != b[0] {
      assert a[0] < b[0] ==> Decides(a, b, 0);
      assert forall k :: k > 0 && Decides(a, b, k) ==> a[..k][0] == b[..k][0];
    } else {
      BeforeIff(a[1..], b[1..]);
      if k :| Decides(a[1..], b[1..], k) {
        DecidesInTail(a, b, k);
      }
      if k :| Decides(a, b, k) {
        DecidesInTail(a, b, k - 1);
      }
    }
  }

  ghost predicate SortedById(items: seq<Item>) {
    forall i, j :: 0 <= i < j < |items| ==> !Before(items[j].id, items[i].id)
  }

  ghost predicate StrictlySorted(items: seq<Item>) {
    forall i, j :: 0 <= i < j < |items| ==> Before(items[i].id, items[j].id)
  }

  function Insert(item: Item, items: seq<Item>): (r: seq<Item>)
    ensures multiset(r) == multiset(items) + multiset{item}
  {
    if items == [] || !Before(items[0].id, item.id) then [item] + items
    else
      assert items == [items[0]] + items[1..];
      [items[0]] + Insert(item, items[1..])
  }

  lemma {:induction false} InsertSorts(item: Item, items: seq<Item>)
    requires SortedById(items)
    ensures SortedById(Insert(item, items))
  {
    if items == [] || !Before(items[0].id, item.id) {
      forall j | 0 <= j < |items|
        ensures !Before(items[j].id, item.id)
      {
        if Before(items[j].id, item.id) {
          BeforeIsTotal(items[0].id, items[j].id);
          BeforeIsTotal(items[0].id, item.id);
          if j > 0 && items[0].id != items[j].id {
            assert !Before(items[j].id, items[0].id);
            BeforeIsTransitive(items[0].id, items[j].id, item.id);
          }
        }
      }
    } else {
      InsertSorts(item, items[1..]);
      var rest := Insert(item, items[1..]);
      forall j | 0 <= j < |rest|
        ensures !Before(rest[j].id, items[0].id)
      {
        assert rest[j] in multiset(rest);
        if rest[j] == item {
          BeforeIsTotal(items[0].id, item.id);
        } else {
          assert rest[j] in items[1..];
        }
      }
    }
  }

  /** Sorting by id, standing for slices.SortFunc: only that the result is a sorted
      permutation matters, since the ids turn out distinct. */
  method SortItems(items: seq<Item>) returns (r: seq<Item>)
    ensures SortedById(r) && multiset(r) == multiset(items)
  {
    r := [];
    for k := 0 to |items|
      invariant SortedById(r) && multiset(r) == multiset(items[..k])
    {
      InsertSorts(items[k], r);
      assert items[..k + 1] == items[..k] + [items[k]];
      r := Insert(items[k], r);
    }
    assert items[..|items|] == items;
  }

  // ---- The join ----

  // The items appended for the first k rows.
  ghost predicate RowItems(sbxs: seq<Sandbox>, k: int, byID: map<string, CState>, items: seq<Item>)
    requires 0 <= k <= |sbxs|
  {
    && |items| == k
    && forall i :: 0 <= i < k ==> items[i] == Item(sbxs[i].id, Some(sbxs[i].row), Lookup(byID, sbxs[i].id))
  }

  // The first loop: index the containers by id.
  method IndexInfos(infos: seq<Info>) returns (byID: map<string, CState>)
    ensures byID == InfoMap(infos)
  {
    byID := map[];
    for i := 0 to |infos|
      invariant byID == InfoMap(infos[..i])
    {
      assert infos[..i + 1][..i] == infos[..i];
      byID := byID[infos[i].id := infos[i].state];
    }
    assert infos[..|infos|] == infos;
  }

  // The second loop: each row with its container, which is struck out.
  method PairRows(sbxs: seq<Sandbox>, byID: map<string, CState>) returns (items: seq<Item>, left: map<string, CState>)
    requires DistinctRows(sbxs)
    ensures RowItems(sbxs, |sbxs|, byID, items)
    ensures forall id :: id in left <==> id in byID && forall i :: 0 <= i < |sbxs| ==> sbxs[i].id != id
    ensures forall id :: id in left ==> left[id] == byID[id]
  {
    items, left := [], byID;
    for k := 0 to |sbxs|
      invariant RowItems(sbxs, k, byID, items)
      invariant forall id :: id in left <==> id in byID && forall i :: 0 <= i < k ==> sbxs[i].id != id
      invariant forall id :: id in left ==> left[id] == byID[id]
    {
      items := items + [Item(sbxs[k].id, Some(sbxs[k].row), Lookup(left, sbxs[k].id))];
      left := left - {sbxs[k].id};
    }
  }

  // The join but for some containers not yet appended.
  ghost predicate JoinExcept(rows: map<string, Row>, cs: map<string, CState>, items: seq<Item>, missing: set<string>) {
    && (forall i, j :: 0 <= i < j < |items| ==> items[i].id != items[j].id)
    && (forall i :: 0 <= i < |items| ==>
          && items[i].id !in missing
          && (items[i].id in rows || items[i].id in cs)
          && items[i].desired == Lookup(rows, items[i].id)
          && items[i].observed == Lookup(cs, items[i].id))
    && (forall id :: (id in rows || id in cs) && id !in missing ==> exists i :: 0 <= i < |items| && items[i].id == id)
    && (forall id :: id in missing ==> id !in rows && id in cs)
  }

  lemma OrphanJoins(rows: map<string, Row>, cs: map<string, CState>, items: seq<Item>, missing: set<string>, id: string)
    requires JoinExcept(rows, cs, items, missing) && id in missing
    ensures JoinExcept(rows, cs, items + [Item(id, None, Some(cs[id]))], missing - {id})
  {
    var items' := items + [Item(id, None, Some(cs[id]))];
    forall x | (x in rows || x in cs) && x !in missing - {id}
      ensures exists i :: 0 <= i < |items'| && items'[i].id == x
    {
      if x == id {
        assert items'[|items|].id == x;
      } else {
        var i :| 0 <= i < |items| && items[i].id == x;
        assert items'[i].id == x;
      }
    }
  }

  // The third loop: what is left, in any order.
  method AddOrphans(ghost rows: map<string, Row>, ghost byID: map<string, CState>, paired: seq<Item>,
      unpaired: map<string, CState>)
    returns (items: seq<Item>)
    requires forall id :: id in unpaired ==> id in byID && unpaired[id] == byID[id]
    requires JoinExcept(rows, byID, paired, unpaired.Keys)
    ensures OuterJoin(rows, byID, items)
  {
    items := paired;
    var left := unpaired;
    while left != map[]
      invariant forall id :: id in left ==> id in byID && left[id] == byID[id]
      invariant JoinExcept(rows, byID, items, left.Keys)
      decreases |left|
    {
      var id :| id in left;
      OrphanJoins(rows, byID, items, left.Keys, id);
      items := items + [Item(id, None, Some(left[id]))];
      left := left - {id};
    }
  }

  lemma RowItemsJoin(sbxs: seq<Sandbox>, byID: map<string, CState>, items: seq<Item>, left: map<string, CState>)
    requires DistinctRows(sbxs) && RowItems(sbxs, |sbxs|, byID, items)
    requires forall id :: id in left <==> id in byID && forall i :: 0 <= i < |sbxs| ==> sbxs[i].id != id
    ensures JoinExcept(RowMap(sbxs), byID, items, left.Keys)
  {
    var rows := RowMap(sbxs);
    forall i | 0 <= i < |items|
      ensures items[i].desired == Lookup(rows, items[i].id) && items[i].id !in left
    {
      RowMapHolds(sbxs, i);
      assert items[i] == Item(sbxs[i].id, Some(sbxs[i].row), Lookup(byID, sbxs[i].id));
    }
    forall id | (id in rows || id in byID) && id !in left
      ensures exists i :: 0 <= i < |items| && items[i].id == id
    {
      var i :| 0 <= i < |sbxs| && sbxs[i].id == id;
      assert items[i].id == id;
    }
  }

  lemma TwiceInSequence(s: seq<Item>, i: nat, j: nat)
    requires i < j < |s| && s[i] == s[j]
    ensures multiset(s)[s[i]] >= 2
  {
    assert s == s[..j] + s[j..];
    assert s[..j][i] == s[i] && s[j..][0] == s[i];
    assert s[i] in multiset(s[..j]) && s[i] in multiset(s[j..]);
  }

  lemma {:induction false} OnceInDistinct(s: seq<Item>, x: Item)
    requires forall i, j :: 0 <= i < j < |s| ==> s[i].id != s[j].id
    ensures multiset(s)[x] <= 1
  {
    if s != [] {
      assert s == [s[0]] + s[1..];
      OnceInDistinct(s[1..], x);
      if s[0] == x {
        assert x !in s[1..];
        assert x !in multiset(s[1..]);
      }
    }
  }

  lemma PermutationKeepsDistinct(items: seq<Item>, other: seq<Item>)
    requires forall i, j :: 0 <= i < j < |items| ==> items[i].id != items[j].id
    requires multiset(other) == multiset(items)
    ensures forall i, j :: 0 <= i < j < |other| ==> other[i].id != other[j].id
  {
    forall i, j | 0 <= i < j < |other|
      ensures other[i].id != other[j].id
    {
      if other[i].id == other[j].id {
        assert other[i] in multiset(items) && other[j] in multiset(items);
        assert other[i] in items && other[j] in items;
        assert other[i] == other[j];
        TwiceInSequence(other, i, j);
        OnceInDistinct(items, other[i]);
      }
    }
  }

  lemma SortedPermutationJoins(rows: map<string, Row>, cs: map<string, CState>, items: seq<Item>, sorted: seq<Item>)
    requires OuterJoin(rows, cs, items) && multiset(sorted) == multiset(items) && SortedById(sorted)
    ensures OuterJoin(rows, cs, sorted) && StrictlySorted(sorted)
  {
    PermutationKeepsDistinct(items, sorted);
    forall i | 0 <= i < |sorted|
      ensures sorted[i] in items
    {
      assert sorted[i] in multiset(sorted);
    }
    forall id | id in rows || id in cs
      ensures exists i :: 0 <= i < |sorted| && sorted[i].id == id
    {
      var k :| 0 <= k < |items| && items[k].id == id;
      assert items[k] in multiset(items);
      assert items[k] in sorted;
    }
    forall i, j | 0 <= i < j < |sorted|
      ensures Before(sorted[i].id, sorted[j].id)
    {
      BeforeIsTotal(sorted[i].id, sorted[j].id);
    }
  }

  method SortJoin(ghost rows: map<string, Row>, ghost cs: map<string, CState>, items: seq<Item>)
      returns (sorted: seq<Item>)
    requires OuterJoin(rows, cs, items)
    ensures OuterJoin(rows, cs, sorted) && StrictlySorted(sorted)
  {
    sorted := SortItems(items);
    SortedPermutationJoins(rows, cs, items, sorted);
  }

  /** The source's join: index the containers, take each row with its container and
      strike that container out, append what is left, sort. */
  method PairSnapshots(sbxs: seq<Sandbox>, infos: seq<Info>) returns (items: seq<Item>)
    requires DistinctRows(sbxs)
    ensures OuterJoin(RowMap(sbxs), InfoMap(infos), items)
    ensures StrictlySorted(items)
  {
    var byID := IndexInfos(infos);
    var left: map<string, CState>;
    items, left := PairRows(sbxs, byID);
    RowItemsJoin(sbxs, byID, items, left);
    items := AddOrphans(RowMap(sbxs), byID, items, left);
    items := SortJoin(RowMap(sbxs), byID, items);
  }

  lemma SameItems(rows: map<string, Row>, cs: map<string, CState>, a: seq<Item>, b: seq<Item>)
    requires OuterJoin(rows, cs, a) && OuterJoin(rows, cs, b)
    ensures forall x :: x in a ==> x in b
  {
  }

  lemma {:induction false} SortedSameSet(a: seq<Item>, b: seq<Item>)
    requires StrictlySorted(a) && StrictlySorted(b)
    requires forall x :: x in a <==> x in b
    ensures a == b
  {
    assert a == [] <==> b == [] by {
      if a != [] {
        assert a[0] in b;
      }
      if b != [] {
        assert b[0] in a;
      }
    }
    if a != [] {
      assert a[0] in b;
      assert b[0] in a;
      var i :| 0 <= i < |b| && b[i] == a[0];
      var j :| 0 <= j < |a| && a[j] == b[0];
      BeforeIsTotal(a[0].id, b[0].id);
      assert a[0] == b[0];
      forall x
        ensures x in a[1..] <==> x in b[1..]
      {
        if x in a[1..] {
          var m :| 1 <= m < |a| && a[m] == x;
          BeforeIsTotal(a[0].id, x.id);
          assert x in b;
        }
        if x in b[1..] {
          var m :| 1 <= m < |b| && b[m] == x;
          BeforeIsTotal(b[0].id, x.id);
          assert x in a;
        }
      }
      SortedSameSet(a[1..], b[1..]);
    }
  }

  /** There is only one sorted outer join, so nothing the listings' order, the map's
      iteration order or the sort algorithm could vary shows in the result. */
  lemma {:induction false} SortedJoinIsUnique(rows: map<string, Row>, cs: map<string, CState>, a: seq<Item>,
      b: seq<Item>)
    requires OuterJoin(rows, cs, a) && StrictlySorted(a)
    requires OuterJoin(rows, cs, b) && StrictlySorted(b)
    ensures a == b
  {
    SameItems(rows, cs, a, b);
    SameItems(rows, cs, b, a);
    SortedSameSet(a, b);
  }

  lemma PermutedInfosSameMap(infos: seq<Info>, infos': seq<Info>)
    requires DistinctInfos(infos) && DistinctInfos(infos')
    requires forall x :: x in infos <==> x in infos'
    ensures InfoMap(infos) == InfoMap(infos')
  {
    forall id
      ensures id in InfoMap(infos) <==> id in InfoMap(infos')
      ensures id in InfoMap(infos) ==> InfoMap(infos)[id] == InfoMap(infos')[id]
    {
      if id in InfoMap(infos) {
        var k :| 0 <= k < |infos| && infos[k].id == id;
        assert infos[k] in infos';
        var j :| 0 <= j < |infos'| && infos'[j] == infos[k];
        InfoMapHolds(infos, k);
        InfoMapHolds(infos', j);
      }
      if id in InfoMap(infos') {
        var k :| 0 <= k < |infos'| && infos'[k].id == id;
        assert infos'[k] in infos;
      }
    }
  }

  lemma PermutedRowsSameMap(sbxs: seq<Sandbox>, sbxs': seq<Sandbox>)
    requires DistinctRows(sbxs) && DistinctRows(sbxs')
    requires forall x :: x in sbxs <==> x in sbxs'
    ensures RowMap(sbxs) == RowMap(sbxs')
  {
    forall id
      ensures id in RowMap(sbxs) <==> id in RowMap(sbxs')
      ensures id in RowMap(sbxs) ==> RowMap(sbxs)[id] == RowMap(sbxs')[id]
    {
      if id in RowMap(sbxs) {
        var k :| 0 <= k < |sbxs| && sbxs[k].id == id;
        assert sbxs[k] in sbxs';
        var j :| 0 <= j < |sbxs'| && sbxs'[j] == sbxs[k];
        RowMapHolds(sbxs, k);
        RowMapHolds(sbxs', j);
      }
      if id in RowMap(sbxs') {
        var k :| 0 <= k < |sbxs'| && sbxs'[k].id == id;
        assert sbxs'[k] in sbxs;
      }
    }
  }

  /** Whatever order the store and the runtime list in, the items are the same. */
  lemma JoinIgnoresListingOrder(
      sbxs: seq<Sandbox>, sbxs': seq<Sandbox>, infos: seq<Info>, infos': seq<Info>, items: seq<Item>, items': seq<Item>)
    requires DistinctRows(sbxs) && DistinctRows(sbxs') && DistinctInfos(infos) && DistinctInfos(infos')
    requires forall x :: x in sbxs <==> x in sbxs'
    requires forall x :: x in infos <==> x in infos'
    requires OuterJoin(RowMap(sbxs), InfoMap(infos), items) && StrictlySorted(items)
    requires OuterJoin(RowMap(sbxs'), InfoMap(infos'), items') && StrictlySorted(items')
    ensures items == items'
  {
    PermutedRowsSameMap(sbxs, sbxs');
    PermutedInfosSameMap(infos, infos');
    SortedJoinIsUnique(RowMap(sbxs), InfoMap(infos), items, items');
  }
}
