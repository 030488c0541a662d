/**
 * `OrdersService`: the order lifecycle (list, create, patch, approve,
 * deliver, delete) over the repository's map, and the CSV export and
 * import built on the codec. Every id arrives as text and goes through
 * `Long.parseLong` first.
 *
 * Each state-changing operation is specified by a function from the store
 * before the call to a `Step`: the store after it and what it returned or
 * threw. The methods of class `OrdersService` do what the Java code does to
 * the repository and are proved to agree with those functions.
 */
module OrdersService {
  import opened Wrappers
  import opened JavaLong
  import opened Orders
  import opened OrdersRepository
  import opened JavaExceptions
  import opened OrdersCsv

  /** The store after a call, and the call's outcome. */
  datatype Step<+T> = Step(store: Store, outcome: Outcome<T>)

  /** The order `createNewOrder` builds for id `id`. */
  function NewOrderWithId(id: int, n: NewOrder): Order {
    Order(Some(id), n.productId, n.quantity, None, None, None)
  }

  /**
   * `createNewOrder`: the new order gets id `size + 1`, which may be the id of
   * a stored order; the result is what `addOrder` returns, the order that was
   * under that id before.
   */
  function Create(m: Store, n: NewOrder): (s: Step<Option<Order>>)
    ensures Lookup(s.store, |m| + 1) == Some(NewOrderWithId(|m| + 1, n))
    ensures forall k :: k != |m| + 1 ==> Lookup(s.store, k) == Lookup(m, k)
    ensures s.outcome == Ok(Lookup(m, |m| + 1))
    ensures |s.store| == |m| <==> s.outcome.value.Some?
    ensures KeysMatchIds(m) ==> KeysMatchIds(s.store)
  {
    var order := NewOrderWithId(|m| + 1, n);
    Step(Put(m, order), Ok(Lookup(m, |m| + 1)))
  }

  /** The three fields a patch overwrites, with whatever the edit holds, absent values included. */
  function Patched(o: Order, e: EditedOrder): (p: Order)
    ensures p.id == o.id && p.productId == o.productId && p.date == o.date
    ensures p.status == e.status && p.complete == e.complete && p.quantity == e.quantity
  {
    o.(status := e.status, complete := e.complete, quantity := e.quantity)
  }

  /**
   * `patchOrder`: an id that does not parse throws `NumberFormatException`,
   * an id that is not stored throws `NoSuchElementException`; otherwise the
   * stored order is patched in place and put back, and `put` hands back that
   * same, already patched, order.
   */
  function Patch(m: Store, id: string, e: EditedOrder): (s: Step<Order>)
    requires KeysMatchIds(m)
    ensures ParseLong(id).None? ==> s == Step(m, Err(NumberFormat))
    ensures ParseLong(id).Some? && ParseLong(id).value !in m ==> s == Step(m, Err(NoSuchElement))
    ensures s.outcome.Ok? <==> ParseLong(id).Some? && ParseLong(id).value in m
    ensures s.outcome.Ok? ==>
      var k := ParseLong(id).value;
      && s.outcome.value == Patched(m[k], e)
      && Lookup(s.store, k) == Some(s.outcome.value)
      && (forall j :: j != k ==> Lookup(s.store, j) == Lookup(m, j))
    ensures KeysMatchIds(s.store)
  {
    match ParseLong(id)
    case None => Step(m, Err(NumberFormat))
    case Some(k) =>
      if k !in m then Step(m, Err(NoSuchElement))
      else
        var order := Patched(m[k], e);
        Step(Put(m, order), Ok(order))
  }

  /**
   * `approveOrder` and `deliverOrder`: set the status of the stored order and
   * return it. Nothing checks that the id is stored: a missing one makes
   * `get` return null and `setStatus` dereference it.
   */
  function SetStatus(m: Store, id: string, status: Status): (s: Step<Order>)
    ensures ParseLong(id).None? ==> s == Step(m, Err(NumberFormat))
    ensures ParseLong(id).Some? && ParseLong(id).value !in m ==> s == Step(m, Err(NullDeref))
    ensures s.outcome.Ok? <==> ParseLong(id).Some? && ParseLong(id).value in m
    ensures s.outcome.Ok? ==>
      var k := ParseLong(id).value;
      && s.outcome.value == m[k].(status := Some(status))
      && Lookup(s.store, k) == Some(s.outcome.value)
      && (forall j :: j != k ==> Lookup(s.store, j) == Lookup(m, j))
    ensures KeysMatchIds(m) ==> KeysMatchIds(s.store)
  {
    match ParseLong(id)
    case None => Step(m, Err(NumberFormat))
    case Some(k) =>
      if k !in m then Step(m, Err(NullDeref))
      else
        var order := m[k].(status := Some(status));
        Step(m[k := order], Ok(order))
  }

  /** `deleteOrder`: removes the id if it is stored; an absent id changes nothing and is no error. */
  function Delete(m: Store, id: string): (s: Step<()>)
    ensures ParseLong(id).None? ==> s == Step(m, Err(NumberFormat))
    ensures ParseLong(id).Some? ==>
      && s.outcome.Ok?
      && s.store.Keys == m.Keys - {ParseLong(id).value}
      && (forall k :: k in s.store ==> s.store[k] == m[k])
    ensures KeysMatchIds(m) ==> KeysMatchIds(s.store)
  {
    match ParseLong(id)
    case None => Step(m, Err(NumberFormat))
    case Some(k) => Step(m - {k}, Ok(()))
  }

  /** The loop of `getOrdersInCsv`: one record per order, appended in listing order. */
  method BuildCsvBody(listOfOrders: seq<Order>, env: Environment) returns (csvBody: seq<seq<string>>)
    ensures csvBody == ExportBody(listOfOrders, env)
  {
    csvBody := [];
    for i := 0 to |listOfOrders|
      invariant |csvBody| == i
      invariant forall j :: 0 <= j < i ==> csvBody[j] == Row(listOfOrders[j], env)
    {
      csvBody := csvBody + [Row(listOfOrders[i], env)];
    }
    ExportBodyOfRows(listOfOrders, env, csvBody);
  }

  /**
   * The loop of `addOrdersFromCsv`: records of at most two fields are
   * skipped, the others decoded and appended in turn; the first failing one
   * ends the loop with its fault.
   */
  method ReadOrders(records: seq<seq<string>>, env: Environment) returns (r: Outcome<seq<Order>>)
    ensures r == ImportRecords(records, env)
  {
    var orderList: seq<Order> := [];
    var i := 0;
    assert records[i..] == records;
    assert Prepend(orderList, ImportRecords(records, env)) == ImportRecords(records, env) by {
      match ImportRecords(records, env)
      case Err(_) =>
      case Ok(os) => assert orderList + os == os;
    }
    while i < |records|
      invariant 0 <= i <= |records|
      invariant ImportRecords(records, env) == Prepend(orderList, ImportRecords(records[i..], env))
    {
      ImportRecordsAt(records, i, env);
      var record := records[i];
      if |record| > 2 {
        var currentOrder := DecodeRecord(record, env);
        if currentOrder.Err? {
          return Err(currentOrder.fault);
        }
        PrependTwice(orderList, currentOrder.value, ImportRecords(records[i + 1..], env));
        orderList := orderList + [currentOrder.value];
      }
      i := i + 1;
    }
    assert records[i..] == [];
    assert orderList + [] == orderList;
    r := Ok(orderList);
  }

  class OrdersService {
    const ordersRepository: OrdersRepositoryImpl

    constructor (repository: OrdersRepositoryImpl)
      ensures ordersRepository == repository
    {
      ordersRepository := repository;
    }

    /** `getOrders`: the status and time window are accepted and ignored; every stored order is listed. */
    function GetOrders(status: Option<Status>, from: Option<OffsetDateTime>, to: Option<OffsetDateTime>): (r: seq<Order>)
      reads ordersRepository
      ensures IsListing(r, ordersRepository.orders)
      ensures r == GetOrdersWithoutParams()
    {
      Listing(ordersRepository.orders)
    }

    /** `getOrdersWithoutParams`: every stored order. */
    function GetOrdersWithoutParams(): (r: seq<Order>)
      reads ordersRepository
      ensures IsListing(r, ordersRepository.orders)
    {
      Listing(ordersRepository.orders)
    }

    method CreateNewOrder(newOrder: NewOrder) returns (r: Option<Order>)
      requires ordersRepository.Valid()
      modifies ordersRepository
      ensures ordersRepository.Valid()
      ensures Create(old(ordersRepository.orders), newOrder) == Step(ordersRepository.orders, Ok(r))
    {
      var order := NewOrderWithId(|ordersRepository.orders| + 1, newOrder);
      r := ordersRepository.AddOrder(order);
    }

    method PatchOrder(id: string, editedOrder: EditedOrder) returns (r: Outcome<Order>)
      requires ordersRepository.Valid()
      modifies ordersRepository
      ensures ordersRepository.Valid()
      ensures Patch(old(ordersRepository.orders), id, editedOrder) == Step(ordersRepository.orders, r)
    {
      var parsed := ParseLong(id);
      if parsed.None? {
        return Err(NumberFormat);
      }
      if parsed.value !in ordersRepository.orders {
        return Err(NoSuchElement);
      }
      var idOfOrder := parsed.value;
      var order := ordersRepository.orders[idOfOrder];
      order := order.(status := editedOrder.status);
      order := order.(complete := editedOrder.complete);
      order := order.(quantity := editedOrder.quantity);
      var _ := ordersRepository.AddOrder(order);
      // `put` hands back the object it replaced, which in the service is this
      // same object already patched in place.
      r := Ok(order);
    }

    method ApproveOrder(id: string) returns (r: Outcome<Order>)
      requires ordersRepository.Valid()
      modifies ordersRepository
      ensures ordersRepository.Valid()
      ensures SetStatus(old(ordersRepository.orders), id, Approved) == Step(ordersRepository.orders, r)
    {
      var parsed := ParseLong(id);
      if parsed.None? {
        return Err(NumberFormat);
      }
      var idOfOrder := parsed.value;
      if idOfOrder !in ordersRepository.orders {
        return Err(NullDeref);
      }
      ordersRepository.orders := ordersRepository.orders[idOfOrder :=
        ordersRepository.orders[idOfOrder].(status := Some(Approved))];
      r := Ok(ordersRepository.orders[idOfOrder]);
    }

    method DeliverOrder(id: string) returns (r: Outcome<Order>)
      requires ordersRepository.Valid()
      modifies ordersRepository
      ensures ordersRepository.Valid()
      ensures SetStatus(old(ordersRepository.orders), id, Delivered) == Step(ordersRepository.orders, r)
    {
      var parsed := ParseLong(id);
      if parsed.None? {
        return Err(NumberFormat);
      }
      var idOfOrder := parsed.value;
      if idOfOrder !in ordersRepository.orders {
        return Err(NullDeref);
      }
      ordersRepository.orders := ordersRepository.orders[idOfOrder :=
        ordersRepository.orders[idOfOrder].(status := Some(Delivered))];
      r := Ok(ordersRepository.orders[idOfOrder]);
    }

    method DeleteOrder(id: string) returns (r: Outcome<()>)
      requires ordersRepository.Valid()
      modifies ordersRepository
      ensures ordersRepository.Valid()
      ensures Delete(old(ordersRepository.orders), id) == Step(ordersRepository.orders, r)
    {
      var parsed := ParseLong(id);
      if parsed.None? {
        return Err(NumberFormat);
      }
      ordersRepository.orders := ordersRepository.orders - {parsed.value};
      r := Ok(());
    }

    /** `getOrdersInCsv`: the header record, then one record per stored order in listing order. */
    method GetOrdersInCsv(env: Environment) returns (records: seq<seq<string>>)
      ensures records == Export(GetOrdersWithoutParams(), env)
    {
      var listOfOrders := Listing(ordersRepository.orders);
      var csvBody := BuildCsvBody(listOfOrders, env);
      records := [Header] + csvBody;
    }

    /**
     * `addOrdersFromCsv`: decodes the records into a local list and discards
     * it. The method may modify nothing, so the store is never written.
     */
    method AddOrdersFromCsv(records: seq<seq<string>>, env: Environment) returns (r: Outcome<()>)
      ensures r.Ok? <==> ImportRecords(records, env).Ok?
      ensures r.Err? ==> r.fault == ImportRecords(records, env).fault
    {
      var orderList := ReadOrders(records, env);
      r := if orderList.Err? then Err(orderList.fault) else Ok(());
    }
  }

  /** Deleting twice is deleting once. */
  lemma DeleteIsIdempotent(m: Store, id: string)
    ensures Delete(Delete(m, id).store, id) == Delete(m, id)
  {
  }

  /** `approveOrder` and `deliverOrder` on a missing id fail with a null dereference, not `NoSuchElementException`. */
  lemma StatusChangeOnMissingIdIsNullDeref(m: Store, id: string, k: int)
    requires KeysMatchIds(m)
    requires ParseLong(id) == Some(k) && k !in m
    ensures SetStatus(m, id, Approved) == Step(m, Err(NullDeref))
    ensures SetStatus(m, id, Delivered) == Step(m, Err(NullDeref))
    ensures forall e :: Patch(m, id, e) == Step(m, Err(NoSuchElement))
  {
  }

  /** The ids 1..n. */
  function RangeSet(n: nat): (r: set<int>)
    ensures forall k :: k in r <==> 1 <= k <= n
  {
    if n == 0 then {} else RangeSet(n - 1) + {n}
  }

  lemma {:induction false} RangeSetSize(n: nat)
    ensures |RangeSet(n)| == n
  {
    if n > 0 {
      var r := RangeSet(n - 1);
      RangeSetSize(n - 1);
      assert n !in r;
      assert RangeSet(n) == r + {n};
      assert |r + {n}| == |r| + 1;
    }
  }

  /** The store holds exactly the ids 1..n. */
  ghost predicate IdsUpTo(m: Store, n: nat) {
    forall k :: k in m <==> 1 <= k <= n
  }

  /** A store holding exactly the ids 1..n has n entries. */
  lemma IdsUpToSize(m: Store, n: nat)
    requires IdsUpTo(m, n)
    ensures |m| == n
  {
    assert m.Keys == RangeSet(n);
    RangeSetSize(n);
    assert |m| == |m.Keys|;
  }

  /** On a store holding exactly the ids 1..n, `createNewOrder` adds id n+1 and overwrites nothing. */
  lemma CreateOnRange(m: Store, n: nat, x: NewOrder)
    requires IdsUpTo(m, n)
    ensures IdsUpTo(Create(m, x).store, n + 1)
    ensures Create(m, x).outcome == Ok(None)
    ensures Lookup(Create(m, x).store, n + 1) == Some(NewOrderWithId(n + 1, x))
    ensures forall k :: k != n + 1 ==> Lookup(Create(m, x).store, k) == Lookup(m, k)
  {
    IdsUpToSize(m, n);
    var after := Create(m, x).store;
    forall k ensures k in after <==> 1 <= k <= n + 1 {
      if k != n + 1 {
        assert Lookup(after, k) == Lookup(m, k);
      }
    }
  }

  /** The store after creating the orders `ns` one after another. */
  function CreateAll(m: Store, ns: seq<NewOrder>): Store {
    if ns == [] then m else Create(CreateAll(m, ns[..|ns| - 1]), ns[|ns| - 1]).store
  }

  /**
   * On a store holding exactly the ids 1..n, creating orders one after another
   * assigns the ids n+1, n+2, ... in creation order and overwrites nothing.
   */
  lemma {:induction false} SequentialCreatesTakeConsecutiveIds(m: Store, n: nat, ns: seq<NewOrder>)
    requires IdsUpTo(m, n)
    ensures IdsUpTo(CreateAll(m, ns), n + |ns|)
    ensures forall i :: 0 <= i < |ns| ==> Lookup(CreateAll(m, ns), n + 1 + i) == Some(NewOrderWithId(n + 1 + i, ns[i]))
    decreases |ns|
  {
    if ns != [] {
      var init, x := ns[..|ns| - 1], ns[|ns| - 1];
      SequentialCreatesTakeConsecutiveIds(m, n, init);
      var before := CreateAll(m, init);
      CreateOnRange(before, n + |init|, x);
      assert CreateAll(m, ns) == Create(before, x).store;
      forall i | 0 <= i < |ns|
        ensures Lookup(CreateAll(m, ns), n + 1 + i) == Some(NewOrderWithId(n + 1 + i, ns[i]))
      {
        if i < |init| {
          assert init[i] == ns[i];
        }
      }
    }
  }

  /** Creating orders on an empty store gives them the ids 1, 2, ... in creation order. */
  lemma CreatesOnEmptyStore(ns: seq<NewOrder>)
    ensures IdsUpTo(CreateAll(map[], ns), |ns|)
    ensures forall i :: 0 <= i < |ns| ==> Lookup(CreateAll(map[], ns), i + 1) == Some(NewOrderWithId(i + 1, ns[i]))
  {
    SequentialCreatesTakeConsecutiveIds(map[], 0, ns);
  }

  /**
   * Id reuse: from the seeded store, deleting order 2 and then creating an
   * order assigns id 3 again, overwriting order 3; two orders remain.
   */
  lemma DeleteThenCreateOverwrites(n: NewOrder)
    ensures var afterDelete := Delete(Seeded(), "2");
      var afterCreate := Create(afterDelete.store, n);
      && afterDelete.store.Keys == {1, 3}
      && afterCreate.outcome == Ok(Some(OrderWithId(3)))
      && afterCreate.store.Keys == {1, 3}
      && afterCreate.store[3] == NewOrderWithId(3, n)
      && |afterCreate.store| == 2
  {
    assert ParseLong("2") == Some(2) by {
      assert "2"[..0] == [];
    }
    var afterDelete := Delete(Seeded(), "2");
    assert afterDelete.store.Keys == {1, 3};
    assert |afterDelete.store| == 2 by {
      assert |afterDelete.store| == |afterDelete.store.Keys|;
    }
    var afterCreate := Create(afterDelete.store, n);
    assert afterCreate.store.Keys == {1, 3} by {
      forall k ensures k in afterCreate.store <==> k in {1, 3} {
        if k != 3 {
          assert Lookup(afterCreate.store, k) == Lookup(afterDelete.store, k);
        }
      }
    }
    assert |afterCreate.store| == |afterCreate.store.Keys|;
  }

  /** The seeded orders export `"null"` for every field but the id, so even the header-less export does not import. */
  lemma SeededExportDoesNotImport(vs: seq<Order>, env: Environment)
    requires IsListing(vs, Seeded())
    ensures ImportRecords(ExportBody(vs, env), env) == Err(NumberFormat)
  {
    assert vs[0] in Seeded().Values;
    ExportWithAbsentProductIdDoesNotImport(vs, env);
  }

  // Corrected creation and import: what `createNewOrder` and
  // `addOrdersFromCsv` evidently intend, next to the code as written above.

  lemma {:induction false} Maximum(keys: set<int>) returns (k: int)
    requires keys != {}
    ensures k in keys && forall j :: j in keys ==> j <= k
    decreases |keys|
  {
    if forall x :: x !in keys {
      assert false;
    }
    var x :| x in keys;
    if keys == {x} {
      k := x;
    } else {
      var rest := keys - {x};
      var m := Maximum(rest);
      k := if x > m then x else m;
      forall j | j in keys ensures j <= k {
        if j != x { assert j in rest; }
      }
    }
  }

  /** An id above every stored one, and positive. */
  function NextFreeId(m: Store): (k: int)
    ensures k >= 1 && k !in m
    ensures forall j :: j in m ==> j < k
  {
    if m == map[] then 1
    else
      assert exists j :: j in m.Keys && forall i :: i in m.Keys ==> i <= j by {
        var j := Maximum(m.Keys);
      }
      var top :| top in m.Keys && forall i :: i in m.Keys ==> i <= top;
      if top + 1 >= 1 then top + 1 else 1
  }

  /**
   * Creation as intended: the new order takes an id no stored order has,
   * nothing is overwritten, and the saved order is returned.
   */
  function CreateFresh(m: Store, n: NewOrder): (s: Step<Order>)
    ensures var k := NextFreeId(m);
      && k !in m
      && s.outcome == Ok(NewOrderWithId(k, n))
      && Lookup(s.store, k) == Some(NewOrderWithId(k, n))
      && s.store.Keys == m.Keys + {k}
    ensures forall j :: j in m ==> Lookup(s.store, j) == Lookup(m, j)
    ensures |s.store| == |m| + 1
    ensures KeysMatchIds(m) ==> KeysMatchIds(s.store)
  {
    var order := NewOrderWithId(NextFreeId(m), n);
    Step(Put(m, order), Ok(order))
  }

  /** On a store holding exactly the ids 1..n the fix stores what the code stores; only the returned value differs. */
  lemma CreateFreshAgreesOnRange(m: Store, n: nat, x: NewOrder)
    requires IdsUpTo(m, n)
    ensures CreateFresh(m, x).store == Create(m, x).store
    ensures Create(m, x).outcome == Ok(None)
    ensures CreateFresh(m, x).outcome == Ok(NewOrderWithId(n + 1, x))
  {
    CreateOnRange(m, n, x);
    IdsUpToSize(m, n);
    var k := NextFreeId(m);
    if n == 0 {
      assert m == map[];
    } else {
      assert n in m;
      assert k == n + 1;
    }
  }

  /** From the seeded store, deleting order 2 and then creating one (as intended) keeps order 3. */
  lemma DeleteThenCreateFreshKeepsOrders(n: NewOrder)
    ensures var afterDelete := Delete(Seeded(), "2");
      var afterCreate := CreateFresh(afterDelete.store, n);
      && afterCreate.store.Keys == {1, 3, 4}
      && afterCreate.store[3] == OrderWithId(3)
      && afterCreate.outcome == Ok(NewOrderWithId(4, n))
  {
    assert ParseLong("2") == Some(2) by {
      assert "2"[..0] == [];
    }
    var afterDelete := Delete(Seeded(), "2");
    assert afterDelete.store.Keys == {1, 3};
    var k := NextFreeId(afterDelete.store);
    assert 3 in afterDelete.store;
    assert k == 4;
  }

  /** The ids a list of orders carries: each order's id, and nothing else. */
  function IdsOf(os: seq<Order>): (ids: set<int>)
    requires forall i :: 0 <= i < |os| ==> os[i].id.Some?
    ensures forall i :: 0 <= i < |os| ==> os[i].id.value in ids
    decreases |os|
  {
    if os == [] then {}
    else
      assert forall i :: 0 <= i < |os| - 1 ==> os[1..][i] == os[i + 1];
      {os[0].id.value} + IdsOf(os[1..])
  }

  /** Every id in `IdsOf(os)` is carried by some order of `os`. */
  lemma {:induction false} IdsOfOnlyIds(os: seq<Order>, k: int)
    requires forall i :: 0 <= i < |os| ==> os[i].id.Some?
    requires k in IdsOf(os)
    ensures exists i :: 0 <= i < |os| && os[i].id == Some(k)
    decreases |os|
  {
    if os[0].id != Some(k) {
      assert forall i :: 0 <= i < |os| - 1 ==> os[1..][i] == os[i + 1];
      IdsOfOnlyIds(os[1..], k);
      var i :| 0 <= i < |os| - 1 && os[1..][i].id == Some(k);
      assert os[i + 1].id == Some(k);
    }
  }

  /** Storing the orders one after another, as `addOrder` would, in list order. */
  function PutAll(m: Store, os: seq<Order>): (r: Store)
    requires forall i :: 0 <= i < |os| ==> os[i].id.Some?
    ensures r.Keys == m.Keys + IdsOf(os)
    decreases |os|
  {
    if os == [] then m
    else
      assert forall i :: 0 <= i < |os| - 1 ==> os[1..][i] == os[i + 1];
      var r := PutAll(Put(m, os[0]), os[1..]);
      PutAllKeysStep(m, os, r.Keys);
      r
  }

  lemma PutAllKeysStep(m: Store, os: seq<Order>, keys: set<int>)
    requires forall i :: 0 <= i < |os| ==> os[i].id.Some?
    requires os != []
    requires keys == Put(m, os[0]).Keys + IdsOf(os[1..])
    ensures keys == m.Keys + IdsOf(os)
  {
  }

  /** Storing orders one after another keeps every order filed under its own id. */
  lemma {:induction false} PutAllKeepsKeysMatchIds(m: Store, os: seq<Order>)
    requires forall i :: 0 <= i < |os| ==> os[i].id.Some?
    requires KeysMatchIds(m)
    ensures KeysMatchIds(PutAll(m, os))
    decreases |os|
  {
    if os != [] {
      PutAllKeepsKeysMatchIds(Put(m, os[0]), os[1..]);
    }
  }

  /** The last of several orders with the same id is the one stored. */
  lemma {:induction false} PutAllKeepsLastWriter(m: Store, os: seq<Order>, i: nat)
    requires forall j :: 0 <= j < |os| ==> os[j].id.Some?
    requires i < |os|
    requires forall j :: i < j < |os| ==> os[j].id != os[i].id
    ensures Lookup(PutAll(m, os), os[i].id.value) == Some(os[i])
    decreases |os|
  {
    var m' := Put(m, os[0]);
    if i == 0 {
      PutAllFrame(m', os[1..], os[0].id.value);
    } else {
      forall j | i - 1 < j < |os| - 1 ensures os[1..][j].id != os[1..][i - 1].id {
        assert os[1..][j] == os[j + 1];
      }
      PutAllKeepsLastWriter(m', os[1..], i - 1);
    }
  }

  /** Ids no later order carries keep their entry. */
  lemma {:induction false} PutAllFrame(m: Store, os: seq<Order>, k: int)
    requires forall j :: 0 <= j < |os| ==> os[j].id.Some?
    requires forall j :: 0 <= j < |os| ==> os[j].id != Some(k)
    ensures Lookup(PutAll(m, os), k) == Lookup(m, k)
    decreases |os|
  {
    if os != [] {
      PutAllFrame(Put(m, os[0]), os[1..], k);
    }
  }

  /**
   * `addOrdersFromCsv` as intended: a failing record changes nothing and
   * ends the import with its fault; otherwise every decoded order is stored
   * under its id, later records overwriting earlier ones.
   */
  function ImportInto(m: Store, recs: seq<seq<string>>, env: Environment): (s: Step<()>)
    ensures ImportRecords(recs, env).Err? ==> s == Step(m, Err(ImportRecords(recs, env).fault))
    ensures ImportRecords(recs, env).Ok? ==>
      && s.outcome.Ok?
      && s.store == PutAll(m, ImportRecords(recs, env).value)
      && s.store.Keys == m.Keys + IdsOf(ImportRecords(recs, env).value)
    ensures KeysMatchIds(m) ==> KeysMatchIds(s.store)
  {
    match ImportRecords(recs, env)
    case Err(f) => Step(m, Err(f))
    case Ok(os) =>
      assert KeysMatchIds(m) ==> KeysMatchIds(PutAll(m, os)) by {
        if KeysMatchIds(m) {
          PutAllKeepsKeysMatchIds(m, os);
        }
      }
      Step(PutAll(m, os), Ok(()))
  }

  /**
   * After a successful import the order stored under an id is the last
   * imported order carrying it, and every id no imported order carries keeps
   * its entry.
   */
  lemma ImportIntoStoresLastWriter(m: Store, recs: seq<seq<string>>, env: Environment)
    requires ImportRecords(recs, env).Ok?
    ensures var os := ImportRecords(recs, env).value;
      forall i :: 0 <= i < |os| && (forall j :: i < j < |os| ==> os[j].id != os[i].id) ==>
        Lookup(ImportInto(m, recs, env).store, os[i].id.value) == Some(os[i])
    ensures var os := ImportRecords(recs, env).value;
      forall k :: (forall j :: 0 <= j < |os| ==> os[j].id != Some(k)) ==>
        Lookup(ImportInto(m, recs, env).store, k) == Lookup(m, k)
  {
    var os := ImportRecords(recs, env).value;
    forall i | 0 <= i < |os| && (forall j :: i < j < |os| ==> os[j].id != os[i].id)
      ensures Lookup(PutAll(m, os), os[i].id.value) == Some(os[i])
    {
      PutAllKeepsLastWriter(m, os, i);
    }
    forall k | (forall j :: 0 <= j < |os| ==> os[j].id != Some(k))
      ensures Lookup(PutAll(m, os), k) == Lookup(m, k)
    {
      PutAllFrame(m, os, k);
    }
  }
}
