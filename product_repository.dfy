/** The product table of the product service and the one query its purchase
    workflow runs against it: `findAllByIdInOrderById`, a derived query that
    selects the rows whose primary key is in a list, ordered by that key. */
module ProductRepository {
  import opened Results
  import opened Collections

  /** A decimal price, carried as unscaled value and scale; nothing in the
      core does arithmetic on it. */
  datatype Price = Price(unscaled: int, scale: int)

  /** A product row. `id` is its primary key (an `Integer`). */
  datatype Product = Product(
    id: int,
    name: string,
    description: string,
    availableQuantity: int,
    price: Price)

  /** The table, keyed by primary key. */
  type ProductTable = map<int, Product>

  /** Every row is stored under its own primary key. */
  predicate WellKeyed(t: ProductTable)
  {
    forall id :: id in t ==> t[id].id == id
  }

  /** `findById`: the row with this primary key, if there is one. */
  function FindById(t: ProductTable, id: int): (r: Option<Product>)
    ensures r.Some? <==> id in t
    ensures r.Some? ==> r.value == t[id]
  {
    if id in t then Some(t[id]) else None
  }

  /** The listed ids that have a row. */
  function StoredIds(t: ProductTable, ids: seq<int>): (s: set<int>)
    ensures forall id :: id in s <==> id in ids && id in t
  {
    set id | id in ids && id in t
  }

  /** The rows under the given keys, in the order of the keys. */
  function RowsAt(t: ProductTable, keys: seq<int>): (r: seq<Product>)
    requires forall i :: 0 <= i < |keys| ==> keys[i] in t
    ensures |r| == |keys|
    ensures forall i :: 0 <= i < |keys| ==> r[i] == t[keys[i]]
  {
    if keys == [] then [] else [t[keys[0]]] + RowsAt(t, keys[1..])
  }

  /** `findAllByIdInOrderById(ids)`: `WHERE id IN (ids) ORDER BY id`. Each
      matching row is returned once, however often its id is listed. */
  function FindAllByIdInOrderById(t: ProductTable, ids: seq<int>): (r: seq<Product>)
    requires WellKeyed(t)
    ensures |r| == |StoredIds(t, ids)|
    ensures forall i :: 0 <= i < |r| ==> r[i].id in ids && r[i].id in t && t[r[i].id] == r[i]
    ensures forall id :: id in ids && id in t ==> t[id] in r
    ensures forall i, j :: 0 <= i < j < |r| ==> r[i].id < r[j].id
  {
    var found := StoredIds(t, ids);
    var keys := SortedIds(found);
    assert forall i :: 0 <= i < |keys| ==> keys[i] in found;
    var r := RowsAt(t, keys);
    forall i | 0 <= i < |r|
      ensures r[i].id == keys[i] && r[i].id in ids && r[i].id in t && t[r[i].id] == r[i]
    {
      assert keys[i] in found;
    }
    forall id | id in ids && id in t
      ensures t[id] in r
    {
      var i :| 0 <= i < |keys| && keys[i] == id;
      assert r[i] == t[id];
    }
    r
  }

  /** The primary keys of a list of rows, in list order. */
  function IdsOf(ps: seq<Product>): (ids: seq<int>)
    ensures |ids| == |ps|
    ensures forall i :: 0 <= i < |ps| ==> ids[i] == ps[i].id
  {
    if ps == [] then [] else [ps[0].id] + IdsOf(ps[1..])
  }

  /** When every listed id is stored, the query's rows carry exactly the
      listed ids, in ascending order. */
  lemma FetchedIds(t: ProductTable, ids: seq<int>)
    requires WellKeyed(t)
    requires forall id :: id in ids ==> id in t
    ensures StrictlyAscending(IdsOf(FindAllByIdInOrderById(t, ids)))
    ensures forall x :: x in IdsOf(FindAllByIdInOrderById(t, ids)) <==> x in ids
  {
    var stored := FindAllByIdInOrderById(t, ids);
    var b := IdsOf(stored);
    forall x
      ensures x in b <==> x in ids
    {
      if x in ids {
        var j := IndexOf(stored, t[x]);
        assert b[j] == x;
      }
    }
  }

  /** The query returns at most one row per distinct id it was given, and
      as many rows as ids exactly when the ids are distinct and all stored. */
  lemma FetchCount(t: ProductTable, ids: seq<int>)
    requires WellKeyed(t)
    ensures |FindAllByIdInOrderById(t, ids)| <= |Elements(ids)| <= |ids|
    ensures |FindAllByIdInOrderById(t, ids)| == |ids| <==>
              Distinct(ids) && forall id :: id in ids ==> id in t
  {
    var found := StoredIds(t, ids);
    var all := Elements(ids);
    var missing := all - found;
    assert all == found + missing && found * missing == {};
    DistinctCard(ids);
    if |found| == |ids| {
      forall id | id in ids
        ensures id in t
      {
        assert id !in missing;
      }
    }
    if forall id :: id in ids ==> id in t {
      assert missing == {};
    }
  }
}
