/**
 * The in-memory order store `OrdersRepositoryImpl`: a `HashMap<Long, Order>`
 * seeded with three orders, written through `addOrder` (which is
 * `HashMap.put`) and read and written directly by the service.
 */
module OrdersRepository {
  import opened Wrappers
  import opened Orders

  type Store = map<int, Order>

  /** The store's invariant: every order is filed under its own id. */
  ghost predicate KeysMatchIds(m: Store) {
    forall k :: k in m ==> m[k].id == Some(k)
  }

  /** `HashMap.get`: the order under `k`, or `None` (Java's `null`). */
  function Lookup(m: Store, k: int): (r: Option<Order>)
    ensures r.None? <==> k !in m
    ensures KeysMatchIds(m) && r.Some? ==> r.value.id == Some(k)
  {
    if k in m then Some(m[k]) else None
  }

  /** `HashMap.put(order.getId(), order)`: the entry under the order's id is replaced. */
  function Put(m: Store, o: Order): (m': Store)
    requires o.id.Some?
    ensures Lookup(m', o.id.value) == Some(o)
    ensures forall k :: k != o.id.value ==> Lookup(m', k) == Lookup(m, k)
    ensures m'.Keys == m.Keys + {o.id.value}
    ensures |m'| == if o.id.value in m then |m| else |m| + 1
    ensures KeysMatchIds(m) ==> KeysMatchIds(m')
  {
    var m' := m[o.id.value := o];
    assert m'.Keys == m.Keys + {o.id.value};
    m'
  }

  /** The store right after `init`. */
  function Seeded(): (m: Store)
    ensures m.Keys == {1, 2, 3}
    ensures forall k :: k in m ==> m[k] == OrderWithId(k)
    ensures KeysMatchIds(m)
  {
    map[1 := OrderWithId(1), 2 := OrderWithId(2), 3 := OrderWithId(3)]
  }

  lemma {:induction false} Minimum(keys: set<int>) returns (k: int)
    requires keys != {}
    ensures k in keys && forall j :: j in keys ==> k <= j
    decreases |keys|
  {
    if forall x :: x !in keys {
      assert false;
    }
    var x :| x in keys;
    if keys == {x} {
      k := x;
    } else {
      var rest := keys - {x};
      var m := Minimum(rest);
      k := if x < m then x else m;
      forall j | j in keys ensures k <= j {
        if j != x { assert j in rest; }
      }
    }
  }

  lemma HasMinimum(keys: set<int>)
    requires keys != {}
    ensures exists k :: k in keys && forall j :: j in keys ==> k <= j
  {
    var k := Minimum(keys);
  }

  function MinKey(keys: set<int>): (k: int)
    requires keys != {}
    ensures k in keys && forall j :: j in keys ==> k <= j
  {
    HasMinimum(keys);
    var k :| k in keys && forall j :: j in keys ==> k <= j; k
  }

  /** The keys of a store in ascending order. */
  function SortedKeys(keys: set<int>): (ks: seq<int>)
    ensures |ks| == |keys|
    ensures forall i :: 0 <= i < |ks| ==> ks[i] in keys
    ensures forall k :: k in keys ==> k in ks
    ensures forall i, j :: 0 <= i < j < |ks| ==> ks[i] < ks[j]
    decreases |keys|
  {
    if keys == {} then []
    else
      var k := MinKey(keys);
      var rest := SortedKeys(keys - {k});
      SortedKeysStep(keys, k, rest);
      [k] + rest
  }

  /** Putting the least key in front of the sorted others sorts all of them. */
  lemma SortedKeysStep(keys: set<int>, k: int, rest: seq<int>)
    requires k in keys && forall j :: j in keys ==> k <= j
    requires |rest| == |keys - {k}|
    requires forall i :: 0 <= i < |rest| ==> rest[i] in keys - {k}
    requires forall j :: j in keys - {k} ==> j in rest
    requires forall i, j :: 0 <= i < j < |rest| ==> rest[i] < rest[j]
    ensures |[k] + rest| == |keys|
    ensures forall i :: 0 <= i < |[k] + rest| ==> ([k] + rest)[i] in keys
    ensures forall j :: j in keys ==> j in [k] + rest
    ensures forall i, j :: 0 <= i < j < |[k] + rest| ==> ([k] + rest)[i] < ([k] + rest)[j]
  {
    var ks := [k] + rest;
    forall i, j | 0 <= i < j < |ks| ensures ks[i] < ks[j] {
      assert ks[j] == rest[j - 1];
      if i > 0 {
        assert ks[i] == rest[i - 1];
      } else {
        assert rest[j - 1] in keys - {k};
      }
    }
    forall j | j in keys ensures j in ks {
      if j != k {
        assert j in keys - {k};
      }
    }
  }

  /** `vs` holds every order of `m` once: the shape of `values().stream().toList()`. */
  ghost predicate IsListing(vs: seq<Order>, m: Store) {
    && |vs| == |m|
    && (forall i :: 0 <= i < |vs| ==> vs[i] in m.Values)
    && (forall k :: k in m ==> m[k] in vs)
  }

  /**
   * `orders.values().stream().toList()`: the orders in the map's iteration
   * order, taken here as ascending id.
   */
  function Listing(m: Store): (vs: seq<Order>)
    ensures IsListing(vs, m)
  {
    var ks := SortedKeys(m.Keys);
    var vs := seq(|ks|, i requires 0 <= i < |ks| => m[ks[i]]);
    ListingCovers(m, ks, vs);
    vs
  }

  lemma ListingCovers(m: Store, ks: seq<int>, vs: seq<Order>)
    requires |ks| == |m.Keys| == |vs|
    requires forall i :: 0 <= i < |ks| ==> ks[i] in m && vs[i] == m[ks[i]]
    requires forall k :: k in m ==> k in ks
    ensures IsListing(vs, m)
  {
    forall k | k in m ensures m[k] in vs {
      var i :| 0 <= i < |ks| && ks[i] == k;
      assert vs[i] == m[k];
    }
    assert |m| == |m.Keys|;
  }

  class OrdersRepositoryImpl {
    var orders: Store

    ghost predicate Valid()
      reads this
    {
      KeysMatchIds(orders)
    }

    /** `new OrdersRepositoryImpl()` and the container's call of its `init`. */
    constructor ()
      ensures Valid()
      ensures orders == Seeded()
    {
      orders := map[];
      new;
      Init();
    }

    /** `init`: three `put`s of orders carrying only an id. */
    method Init()
      requires Valid()
      modifies this
      ensures Valid()
      ensures orders == old(orders)[1 := OrderWithId(1)][2 := OrderWithId(2)][3 := OrderWithId(3)]
    {
      var order1 := OrderWithId(1);
      var order2 := OrderWithId(2);
      var order3 := OrderWithId(3);
      orders := Put(orders, order1);
      orders := Put(orders, order2);
      orders := Put(orders, order3);
    }

    /** `addOrder`: stores `order` under its id and hands back what was there before. */
    method AddOrder(order: Order) returns (previous: Option<Order>)
      requires order.id.Some?
      requires Valid()
      modifies this
      ensures Valid()
      ensures orders == Put(old(orders), order)
      ensures previous == Lookup(old(orders), order.id.value)
    {
      previous := Lookup(orders, order.id.value);
      orders := Put(orders, order);
    }
  }

  /** After `init` exactly ids 1, 2 and 3 are stored, each an order with only its id set. */
  lemma SeededAfterInit(m: Store)
    requires m == map[]
    ensures m[1 := OrderWithId(1)][2 := OrderWithId(2)][3 := OrderWithId(3)] == Seeded()
  {
  }

  /** `addOrder` on a stored id leaves the size unchanged; on a new id it grows by one. */
  lemma PutSizeIff(m: Store, o: Order)
    requires o.id.Some?
    ensures |Put(m, o)| == |m| + 1 <==> o.id.value !in m
  {
  }
}
