/** What a transaction on one order changes and what it leaves alone, and why it is refused. */
module OrderEffects {
  import opened Calls
  import opened Ids
  import opened Domain
  import opened OrderTables
  import opened OrderProperties
  import C = Checkout

  // Other orders.

  lemma {:induction false} SameItemsFor(t: Tables, v: Tables, id: Uuid)
    requires ItemIds(v, id) == ItemIds(t, id)
    requires forall i :: i in ItemIds(t, id) ==> v.items[i] == t.items[i]
    ensures ItemsFor(v, id) == ItemsFor(t, id)
  {
    hide Ordered;
  }

  lemma {:induction false} ReadsTheSame(t: Tables, v: Tables, id: Uuid)
    requires id in t.orders <==> id in v.orders
    requires id in t.orders ==> v.orders[id] == t.orders[id]
    requires ItemsFor(v, id) == ItemsFor(t, id)
    ensures ById(v, id) == ById(t, id)
  {
    hide ScanOrder, ItemsFor, LineIsReadable;
  }

  /** Saving one order does not change what any other reads back as, nor the customers and products. */
  lemma {:induction false} SaveLeavesOthers(t: Tables, o: OrderData, fulfil: bool, other: Uuid)
    requires SaveOrder(t, o, fulfil).Committed? && other != o.id
    ensures var v := SaveOrder(t, o, fulfil).tables;
            ById(v, other) == ById(t, other) && v.customers == t.customers && v.products == t.products
  {
    var c := ClearItems(UpsertOrder(t, o).tables, o.id);
    InsertingLines(c, o.id, o.items);
    hide InsertItems, Images, StatusName, ColumnsOf;
    var v := SaveOrder(t, o, fulfil).tables;
    forall i | 0 <= i < |o.items| ensures v.items[o.items[i].id].orderId == o.id {
      assert v.items[o.items[i].id] == RowOfItem(o.id, o.items[i]);
    }
    assert ItemIds(v, other) == ItemIds(t, other);
    SameItemsFor(t, v, other);
    ReadsTheSame(t, v, other);
  }

  /** Placing an order stores its customer under the name and email given, knows every product from then on, and
   *  leaves other customers and orders alone. */
  lemma {:induction false} PlaceStoresCustomer(
    t: Tables, o: OrderData, customer: Customer, products: seq<Product>, fulfil: bool, other: Uuid)
    requires PlaceOrder(t, o, customer, products, fulfil).Committed?
    ensures var v := PlaceOrder(t, o, customer, products, fulfil).tables;
            && v.customers.Keys == t.customers.Keys + {customer.id}
            && v.customers[customer.id].name == customer.name && v.customers[customer.id].email == customer.email
            && (forall id :: id in t.customers && id != customer.id ==> v.customers[id] == t.customers[id])
            && (forall i :: 0 <= i < |products| ==> products[i].id in v.products)
            && (other != o.id ==> ById(v, other) == ById(t, other))
  {
    var s := SaveCustomer(t, customer);
    var u := AddProducts(s, products);
    ProductsBecomeKnown(s, products);
    assert forall i :: 0 <= i < |products| ==> Mentions(products, products[i].id);
    assert u.orders == t.orders && u.items == t.items;
    assert s.customers.Keys == t.customers.Keys + {customer.id};
    assert s.customers[customer.id].name == customer.name && s.customers[customer.id].email == customer.email;
    hide AddProducts, Mentions, SaveOrder, ById, ItemsFor;
    SaveLeavesOthers(u, o, fulfil, if other == o.id then AnotherId(o.id) else other);
    SameItems(t, u, other);
    ReadsTheSame(t, u, other);
  }

  function AnotherId(id: Uuid): (other: Uuid)
    ensures other != id
  {
    if id == 0 then 1 else 0
  }

  /** Deleting an order takes its row and lines, and nothing else. */
  lemma {:induction false} DeleteTakesOnlyTheOrder(t: Tables, id: Uuid, other: Uuid)
    ensures var v := DeleteOrder(t, id);
            && ById(v, id).Err? && ItemIds(v, id) == {}
            && (other != id ==> ById(v, other) == ById(t, other))
            && v.customers == t.customers && v.products == t.products && v.outbox == t.outbox
  {
    var v := DeleteOrder(t, id);
    if other != id {
      assert ItemIds(v, other) == ItemIds(t, other);
      SameItemsFor(t, v, other);
      ReadsTheSame(t, v, other);
    }
  }

  // Refusals.

  /** The line's product is known, and its id is neither in the table nor that of a line before it. */
  predicate Fits(t: Tables, items: seq<OrderItem>, i: nat)
    requires i < |items|
  {
    && items[i].productId in t.products && items[i].id !in t.items
    && forall j :: 0 <= j < i ==> items[j].id != items[i].id
  }

  /** Line i is the first that does not fit. */
  predicate BreaksAt(t: Tables, items: seq<OrderItem>, i: nat)
    requires i < |items|
  {
    !Fits(t, items, i) && forall j :: 0 <= j < i ==> Fits(t, items, j)
  }

  lemma {:induction false} FitsAfterFirst(t: Tables, u: Tables, items: seq<OrderItem>, i: nat)
    requires 0 < i < |items| && items[0].id !in t.items && u.products == t.products
    requires u.items.Keys == t.items.Keys + {items[0].id}
    ensures Fits(u, items[1..], i - 1) <==> Fits(t, items, i)
  {
    assert items[1..][i - 1] == items[i];
    assert forall j :: 0 < j < i ==> items[j] == items[1..][j - 1];
  }

  lemma {:induction false} InsertingBreaks(t: Tables, orderId: Uuid, items: seq<OrderItem>) returns (i: nat)
    requires InsertItems(t, orderId, items).RolledBack?
    ensures i < |items| && BreaksAt(t, items, i)
    ensures InsertItems(t, orderId, items).why == if items[i].productId !in t.products then MissingReference else Broken
    decreases |items|
  {
    var s := InsertItem(t, orderId, items[0]);
    if s.RolledBack? {
      i := 0;
    } else {
      hide Fits;
      i := InsertingBreaks(s.tables, orderId, items[1..]);
      i := i + 1;
      forall j | 0 < j <= i ensures Fits(s.tables, items[1..], j - 1) <==> Fits(t, items, j) {
        FitsAfterFirst(t, s.tables, items, j);
      }
      assert Fits(t, items, 0) by { FirstFits(t, orderId, items); }
    }
  }

  lemma {:induction false} FirstFits(t: Tables, orderId: Uuid, items: seq<OrderItem>)
    requires items != [] && InsertItem(t, orderId, items[0]).Committed?
    ensures Fits(t, items, 0)
  {
  }

  /** A save is refused if and only if the customer is unknown or a line does not fit among the other orders'
   *  lines. It is told apart as a missing reference exactly when the customer is unknown, or the first line that
   *  does not fit is of an unknown product. */
  lemma {:induction false} SaveIsRefusedIff(t: Tables, o: OrderData, fulfil: bool)
    ensures var r := SaveOrder(t, o, fulfil);
            var others := ClearItems(t, o.id);
            && (r.RolledBack? <==>
                  o.customerId !in t.customers || exists i: nat :: i < |o.items| && BreaksAt(others, o.items, i))
            && (r.RolledBack? ==>
                  (r.why.MissingReference? <==>
                     || o.customerId !in t.customers
                     || exists i: nat :: i < |o.items| && BreaksAt(others, o.items, i) && o.items[i].productId !in t.products))
  {
    hide Images, StatusName, ColumnsOf, InsertItems, Fits;
    var others := ClearItems(t, o.id);
    if o.customerId in t.customers {
      var c := ClearItems(UpsertOrder(t, o).tables, o.id);
      assert c.items == others.items && c.products == others.products;
      FitsAlike(c, others, o.items);
      if InsertItems(c, o.id, o.items).RolledBack? {
        var i := InsertingBreaks(c, o.id, o.items);
        assert BreaksAt(others, o.items, i);
        forall k: nat | k < |o.items| && BreaksAt(others, o.items, k) ensures k == i { OnlyOneBreaks(others, o.items, i, k); }
      } else {
        InsertingLines(c, o.id, o.items);
        forall k: nat | k < |o.items| ensures !BreaksAt(others, o.items, k) { DistinctFit(others, o.items, k); }
      }
    }
  }

  lemma {:induction false} FitsAlike(c: Tables, d: Tables, items: seq<OrderItem>)
    requires c.items == d.items && c.products == d.products
    ensures forall i: nat :: i < |items| ==> (Fits(c, items, i) <==> Fits(d, items, i))
  {
  }

  lemma {:induction false} OnlyOneBreaks(t: Tables, items: seq<OrderItem>, i: nat, k: nat)
    requires i < |items| && k < |items| && BreaksAt(t, items, i) && BreaksAt(t, items, k)
    ensures i == k
  {
    hide Fits;
  }

  lemma {:induction false} DistinctFit(t: Tables, items: seq<OrderItem>, k: nat)
    requires k < |items| && DistinctIds(items)
    requires forall i :: 0 <= i < |items| ==> items[i].id !in t.items && items[i].productId in t.products
    ensures Fits(t, items, k)
  {
  }
}
