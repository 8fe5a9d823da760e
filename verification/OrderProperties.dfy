/** What Ordering's transactions keep: references that hold, orders that read back as they were saved,
 *  and events announced exactly once.
 */
module OrderProperties {
  import opened Calls
  import opened Ids
  import opened Domain
  import opened OrderTables
  import C = Checkout

  ghost predicate DistinctIds(items: seq<OrderItem>) {
    forall i, j :: 0 <= i < j < |items| ==> items[i].id != items[j].id
  }

  function RowOfItem(orderId: Uuid, item: OrderItem): ItemRow {
    ItemRow(orderId, item.productId, item.quantity, item.price)
  }

  /** Inserting lines succeeds exactly when every product is known and every id is new. */
  lemma {:induction false} InsertingSucceeds(t: Tables, orderId: Uuid, items: seq<OrderItem>)
    ensures InsertItems(t, orderId, items).Committed? <==>
              && DistinctIds(items)
              && forall i :: 0 <= i < |items| ==> items[i].id !in t.items && items[i].productId in t.products
    decreases |items|
  {
    if items != [] {
      var first, rest := items[0], items[1..];
      var s := InsertItem(t, orderId, first);
      assert forall i :: 0 < i < |items| ==> items[i] == rest[i - 1];
      if s.Committed? {
        InsertingSucceeds(s.tables, orderId, rest);
        hide InsertItems;
        if DistinctIds(items) {
          assert DistinctIds(rest);
        }
        if DistinctIds(rest) && forall i :: 0 <= i < |rest| ==> rest[i].id != first.id {
          assert DistinctIds(items);
        }
      }
    }
  }

  /** It then adds those lines and nothing else. */
  lemma {:induction false} InsertingLines(t: Tables, orderId: Uuid, items: seq<OrderItem>)
    ensures InsertItems(t, orderId, items).Committed? <==>
              && DistinctIds(items)
              && forall i :: 0 <= i < |items| ==> items[i].id !in t.items && items[i].productId in t.products
    ensures var r := InsertItems(t, orderId, items);
            r.Committed? ==>
              && r.tables == t.(items := r.tables.items)
              && (forall id :: id in r.tables.items <==>
                    id in t.items || exists i :: 0 <= i < |items| && items[i].id == id)
              && (forall id :: id in t.items ==> r.tables.items[id] == t.items[id])
              && (forall i :: 0 <= i < |items| ==>
                    items[i].id in r.tables.items && r.tables.items[items[i].id] == RowOfItem(orderId, items[i]))
    decreases |items|
  {
    InsertingSucceeds(t, orderId, items);
    if items != [] {
      var first, rest := items[0], items[1..];
      var s := InsertItem(t, orderId, first);
      assert forall i :: 0 < i < |items| ==> items[i] == rest[i - 1];
      if s.Committed? {
        InsertingLines(s.tables, orderId, rest);
        hide DistinctIds;
      }
    }
  }

  // References.

  ghost predicate ReferencesHold(t: Tables) {
    && (forall o :: o in t.orders ==> t.orders[o].customerId in t.customers)
    && (forall i :: i in t.items ==> t.items[i].productId in t.products && t.items[i].orderId in t.orders)
  }

  lemma {:induction false} SaveKeepsReferences(t: Tables, o: OrderData, fulfil: bool)
    requires ReferencesHold(t) && SaveOrder(t, o, fulfil).Committed?
    ensures ReferencesHold(SaveOrder(t, o, fulfil).tables)
  {
    var u := UpsertOrder(t, o).tables;
    var c := ClearItems(u, o.id);
    InsertingLines(c, o.id, o.items);
    hide InsertItems, Images;
    var v := SaveOrder(t, o, fulfil).tables;
    forall i | i in v.items ensures v.items[i].productId in v.products && v.items[i].orderId in v.orders {
      if i !in c.items {
        var k :| 0 <= k < |o.items| && o.items[k].id == i;
        assert v.items[i] == RowOfItem(o.id, o.items[k]);
      }
    }
  }

  ghost predicate Mentions(products: seq<Product>, id: Uuid) {
    exists i :: 0 <= i < |products| && products[i].id == id
  }

  lemma {:induction false} MentionsOfAppend(products: seq<Product>, p: Product, id: Uuid)
    ensures Mentions(products + [p], id) <==> Mentions(products, id) || p.id == id
  {
    assert (products + [p])[|products|] == p;
    if Mentions(products, id) {
      var i :| 0 <= i < |products| && products[i].id == id;
      assert (products + [p])[i].id == id;
    }
  }

  /** Known products stay as they are, and exactly the mentioned ones are known afterwards. */
  lemma {:induction false} ProductsBecomeKnown(t: Tables, products: seq<Product>)
    ensures var u := AddProducts(t, products);
            && u == t.(products := u.products)
            && (forall id :: id in t.products ==> id in u.products && u.products[id] == t.products[id])
            && (forall id :: id in u.products <==> id in t.products || Mentions(products, id))
  {
    if products != [] {
      var n := |products| - 1;
      ProductsBecomeKnown(t, products[..n]);
      assert products == products[..n] + [products[n]];
      hide Mentions;
      forall id ensures Mentions(products, id) <==> Mentions(products[..n], id) || products[n].id == id {
        MentionsOfAppend(products[..n], products[n], id);
      }
    }
  }

  /** A product not known before is added once, as the first line that mentions it describes it. */
  lemma {:induction false} FirstLineDescribes(t: Tables, products: seq<Product>, i: nat)
    requires i < |products| && products[i].id !in t.products
    requires forall j :: 0 <= j < i ==> products[j].id != products[i].id
    ensures var u := AddProducts(t, products);
            products[i].id in u.products && u.products[products[i].id] == ProductRow(products[i].name, products[i].price)
  {
    var n := |products| - 1;
    ProductsBecomeKnown(t, products[..n]);
    if i < n {
      FirstLineDescribes(t, products[..n], i);
    }
  }

  lemma {:induction false} PlaceKeepsReferences(t: Tables, o: OrderData, c: Customer, products: seq<Product>, fulfil: bool)
    requires ReferencesHold(t) && PlaceOrder(t, o, c, products, fulfil).Committed?
    ensures ReferencesHold(PlaceOrder(t, o, c, products, fulfil).tables)
  {
    var u := AddProducts(SaveCustomer(t, c), products);
    ProductsBecomeKnown(SaveCustomer(t, c), products);
    hide AddProducts;
    assert ReferencesHold(u);
    SaveKeepsReferences(u, o, fulfil);
  }

  lemma {:induction false} DeleteKeepsReferences(t: Tables, id: Uuid)
    requires ReferencesHold(t)
    ensures ReferencesHold(DeleteOrder(t, id)) && id !in DeleteOrder(t, id).orders
  {
  }

  datatype Change =
    | Place(order: OrderData, customer: Customer, products: seq<Product>)
    | SaveAgain(saved: OrderData)
    | Delete(id: Uuid)

  /** A transaction that is rolled back leaves the tables as they were. */
  function Perform(t: Tables, change: Change, fulfil: bool): Tables {
    var r :=
      match change
      case Place(order, customer, products) => PlaceOrder(t, order, customer, products, fulfil)
      case SaveAgain(order) => SaveOrder(t, order, fulfil)
      case Delete(id) => Committed(DeleteOrder(t, id));
    if r.Committed? then r.tables else t
  }

  function PerformAll(t: Tables, changes: seq<Change>, fulfil: bool): Tables
    decreases |changes|
  {
    if changes == [] then t else PerformAll(Perform(t, changes[0], fulfil), changes[1..], fulfil)
  }

  /** In every database reachable through the repository, each line's product and order and each
   *  order's customer exist. */
  lemma {:induction false} ReferencesAlwaysHold(t: Tables, changes: seq<Change>, fulfil: bool)
    requires ReferencesHold(t)
    ensures ReferencesHold(PerformAll(t, changes, fulfil))
    decreases |changes|
  {
    hide ReferencesHold, SaveOrder, PlaceOrder, DeleteOrder;
    if changes != [] {
      match changes[0] {
        case Place(order, customer, products) =>
          if PlaceOrder(t, order, customer, products, fulfil).Committed? {
            PlaceKeepsReferences(t, order, customer, products, fulfil);
          }
        case SaveAgain(order) =>
          if SaveOrder(t, order, fulfil).Committed? { SaveKeepsReferences(t, order, fulfil); }
        case Delete(id) => DeleteKeepsReferences(t, id);
      }
      ReferencesAlwaysHold(Perform(t, changes[0], fulfil), changes[1..], fulfil);
    }
  }

  /** The ids a checkout draws are fresh UUIDs: distinct from each other and from every stored line. */
  ghost predicate FreshIds(t: Tables, itemIds: seq<Uuid>) {
    && (forall i, j :: 0 <= i < j < |itemIds| ==> itemIds[i] != itemIds[j])
    && (forall i :: 0 <= i < |itemIds| ==> itemIds[i] !in t.items)
  }

  /** An order that came from a checkout message can always be placed: its customer and products go in
   *  with it, so no reference can be missing. */
  lemma {:induction false} CheckoutAlwaysPlaces(
    t: Tables, event: C.CheckoutSubmitted, orderId: Uuid, itemIds: seq<Uuid>, fulfil: bool)
    requires |itemIds| == |event.items| && FreshIds(t, itemIds)
    ensures var p := C.PlacementOf(event, orderId, itemIds);
            PlaceOrder(t, p.order, p.customer, p.products, fulfil).Committed?
  {
    var p := C.PlacementOf(event, orderId, itemIds);
    var s := SaveCustomer(t, p.customer);
    var u := AddProducts(s, p.products);
    ProductsBecomeKnown(s, p.products);
    var c := ClearItems(UpsertOrder(u, p.order).tables, orderId);
    InsertingLines(c, orderId, p.order.items);
    hide InsertItems, AddProducts, Images;
    assert forall i :: 0 <= i < |p.products| ==> Mentions(p.products, p.products[i].id);
    forall i | 0 <= i < |p.order.items|
      ensures p.order.items[i].id !in c.items && p.order.items[i].productId in c.products
    {
      assert p.products[i].id == p.order.items[i].productId;
    }
  }

  // Saving and loading.

  /** An order built through the domain's constructors, with ids that are fresh UUIDs. */
  ghost predicate Constructed(o: OrderData) {
    && o.id != NIL && o.customerId != NIL && IsStatus(o.status)
    && C.AddressRules(o.shipping) && C.AddressRules(o.billing)
    && (o.payment == NO_PAYMENT || NewPayment(o.payment.token, o.payment.last4, o.payment.paymentMethod).Ok?)
    && DistinctIds(o.items)
    && forall i :: 0 <= i < |o.items| ==> LineIsReadable(o.items[i]) && o.items[i].orderId == o.id
  }

  lemma {:induction false} BlankOfEmpty()
    ensures Blank("")
  {
  }

  lemma {:induction false} AddressRoundTrip(a: Address)
    requires C.AddressRules(a)
    ensures AddressFrom(ColumnsOf(a)) == Ok(a)
  {
    BlankOfEmpty();
    hide Blank;
  }

  lemma {:induction false} PaymentRoundTrip(o: OrderData)
    requires o.payment == NO_PAYMENT || NewPayment(o.payment.token, o.payment.last4, o.payment.paymentMethod).Ok?
    ensures ScanPayment(RowOf(o)) == Ok(o.payment)
  {
    BlankOfEmpty();
    hide Blank;
  }

  lemma {:induction false} RowRoundTrip(o: OrderData)
    requires Constructed(o)
    ensures ScanOrder(o.id, RowOf(o)) == Ok(o.(items := [], events := []))
  {
    AddressRoundTrip(o.shipping);
    AddressRoundTrip(o.billing);
    PaymentRoundTrip(o);
    StatusRoundTrip(o.status);
    hide StatusName, ParseStatus, AddressFrom, ColumnsOf, ScanPayment;
  }

  lemma {:induction false} CountsAtMostOne(a: seq<OrderItem>, x: OrderItem)
    requires DistinctIds(a)
    ensures multiset(a)[x] == if x in a then 1 else 0
  {
    if a != [] {
      var init := a[..|a| - 1];
      assert a == init + [a[|a| - 1]];
      CountsAtMostOne(init, x);
    }
  }

  lemma {:induction false} SameLines(a: seq<OrderItem>, b: seq<OrderItem>)
    requires DistinctIds(a) && DistinctIds(b) && forall x :: x in a <==> x in b
    ensures multiset(a) == multiset(b)
  {
    forall x: OrderItem ensures multiset(a)[x] == multiset(b)[x] {
      CountsAtMostOne(a, x);
      CountsAtMostOne(b, x);
    }
  }

  /** The order's lines as the table knows them: every one belongs to the order. */
  function Owned(o: OrderData): (items: seq<OrderItem>)
    ensures |items| == |o.items|
    ensures forall i :: 0 <= i < |items| ==> items[i] == o.items[i].(orderId := o.id)
  {
    seq(|o.items|, i requires 0 <= i < |o.items| => o.items[i].(orderId := o.id))
  }

  lemma {:induction false} OwnedTotal(o: OrderData)
    ensures Total(Owned(o)) == Total(o.items)
    decreases |o.items|
  {
    if o.items != [] {
      var init := o.(items := o.items[..|o.items| - 1]);
      OwnedTotal(init);
      assert Owned(o)[..|o.items| - 1] == Owned(init);
    }
  }

  lemma {:induction false} StoredLines(t: Tables, o: OrderData, fulfil: bool)
    requires SaveOrder(t, o, fulfil).Committed?
    ensures var v := SaveOrder(t, o, fulfil).tables;
            && DistinctIds(Owned(o))
            && o.id in v.orders && v.orders[o.id] == RowOf(o)
            && (forall id :: id in ItemIds(v, o.id) <==> exists i :: 0 <= i < |o.items| && Owned(o)[i].id == id)
            && (forall i :: 0 <= i < |o.items| ==>
                  o.items[i].id in v.items && ItemFrom(o.items[i].id, v.items[o.items[i].id]) == Owned(o)[i])
  {
    var c := ClearItems(UpsertOrder(t, o).tables, o.id);
    InsertingLines(c, o.id, o.items);
    hide InsertItems, Images, StatusName, ColumnsOf;
    var v := SaveOrder(t, o, fulfil).tables;
    forall i | 0 <= i < |o.items|
      ensures o.items[i].id in v.items && ItemFrom(o.items[i].id, v.items[o.items[i].id]) == Owned(o)[i]
    {
      assert v.items[o.items[i].id] == RowOfItem(o.id, o.items[i]);
    }
  }

  /** After any save that commits, the table holds exactly the order's lines, and so its total. */
  lemma {:induction false} SavedLines(t: Tables, o: OrderData, fulfil: bool)
    requires SaveOrder(t, o, fulfil).Committed?
    ensures var items := ItemsFor(SaveOrder(t, o, fulfil).tables, o.id);
            && multiset(items) == multiset(Owned(o)) && Total(items) == Total(o.items)
            && forall x :: x in items <==> x in Owned(o)
  {
    StoredLines(t, o, fulfil);
    OwnedTotal(o);
    var v := SaveOrder(t, o, fulfil).tables;
    hide SaveOrder, ItemsFor, ItemIds, Total, Owned, RowOf;
    LoadedLines(v, o.(items := Owned(o)));
    TotalOfPermutation(ItemsFor(v, o.id), Owned(o));
  }

  lemma {:induction false} LoadedLines(v: Tables, o: OrderData)
    requires DistinctIds(o.items)
    requires forall id :: id in ItemIds(v, o.id) <==> exists i :: 0 <= i < |o.items| && o.items[i].id == id
    requires forall i :: 0 <= i < |o.items| ==>
               o.items[i].id in v.items && ItemFrom(o.items[i].id, v.items[o.items[i].id]) == o.items[i]
    ensures multiset(ItemsFor(v, o.id)) == multiset(o.items)
    ensures forall x :: x in ItemsFor(v, o.id) <==> x in o.items
  {
    var ids := Ordered(ItemIds(v, o.id));
    var items := ItemsFor(v, o.id);
    hide Ordered, ItemIds;
    forall x | x in o.items ensures x in items {
      var i :| 0 <= i < |o.items| && o.items[i] == x;
      assert x.id in ids;
      var k :| 0 <= k < |ids| && ids[k] == x.id;
      assert items[k] == x;
    }
    forall x | x in items ensures x in o.items {
      var k :| 0 <= k < |items| && items[k] == x;
      assert ids[k] in ids;
      var i :| 0 <= i < |o.items| && o.items[i].id == ids[k];
      assert o.items[i] == x;
    }
    LoadedIdsAreDistinct(v, o.id);
    SameLines(items, o.items);
  }

  /** An order reads back as it was saved: same customer, addresses, payment (or none) and status, the
   *  same lines in the database's order, and so the same total; nothing is raised by loading. */
  lemma {:induction false} SaveThenLoad(t: Tables, o: OrderData, fulfil: bool)
    requires Constructed(o) && SaveOrder(t, o, fulfil).Committed?
    ensures var r := ById(SaveOrder(t, o, fulfil).tables, o.id);
            && r.Ok? && r.value == o.(items := r.value.items, events := [])
            && multiset(r.value.items) == multiset(o.items)
            && Total(r.value.items) == Total(o.items)
            && Constructed(r.value)
  {
    var v := SaveOrder(t, o, fulfil).tables;
    StoredLines(t, o, fulfil);
    SavedLines(t, o, fulfil);
    assert Owned(o) == o.items;
    hide SaveOrder, ScanOrder, RowOf, ItemsFor, ItemIds, Constructed, Total, Owned;
    RowRoundTrip(o);
    var items := ItemsFor(v, o.id);
    LoadedIdsAreDistinct(v, o.id);
    StaysConstructed(o, items);
    hide DistinctIds, LineIsReadable;
  }

  lemma {:induction false} StaysConstructed(o: OrderData, items: seq<OrderItem>)
    requires Constructed(o) && DistinctIds(items) && forall x :: x in items ==> x in o.items
    ensures Constructed(o.(items := items, events := []))
    ensures forall i :: 0 <= i < |items| ==> LineIsReadable(items[i])
  {
    assert forall i :: 0 <= i < |items| ==> items[i] in o.items;
  }

  lemma {:induction false} LoadedIdsAreDistinct(v: Tables, orderId: Uuid)
    ensures DistinctIds(ItemsFor(v, orderId))
    ensures forall i, j :: 0 <= i < j < |ItemsFor(v, orderId)| ==> ItemsFor(v, orderId)[i].id < ItemsFor(v, orderId)[j].id
  {
    OrderedIncreases(ItemIds(v, orderId));
    hide Ordered, ItemIds;
  }

  /** An accepted update is what is read back after it was saved: exactly the addresses, payment and status it was
   *  given, under the same id and customer, with the same lines. Any of the four statuses is accepted. */
  lemma {:induction false} UpdateReadsBack(
    t: Tables, o: OrderData, fulfil: bool, shipping: Address, billing: Address, payment: Payment, status: Status)
    requires Constructed(o) && C.AddressRules(shipping) && C.AddressRules(billing)
    requires payment == NO_PAYMENT || NewPayment(payment.token, payment.last4, payment.paymentMethod).Ok?
    ensures var updated := Updated(o, shipping, billing, payment, status);
            && (updated.Ok? <==> status in {DRAFT, PENDING, COMPLETED, CANCELLED})
            && (updated.Ok? ==>
                  && updated.value.events == o.events + [OrderUpdated]
                  && var saved := SaveOrder(t, updated.value, fulfil);
                     saved.Committed? ==>
                       var r := ById(saved.tables, o.id);
                       && r.Ok? && r.value.id == o.id && r.value.customerId == o.customerId
                       && r.value.shipping == shipping && r.value.billing == billing
                       && r.value.payment == payment && r.value.status == status
                       && multiset(r.value.items) == multiset(o.items) && Total(r.value.items) == Total(o.items))
  {
    var updated := Updated(o, shipping, billing, payment, status);
    if updated.Ok? {
      assert Constructed(updated.value) by { hide Blank, NewPayment, DistinctIds, LineIsReadable; }
      hide Constructed, ById, SaveOrder, Total;
      if SaveOrder(t, updated.value, fulfil).Committed? { SaveThenLoad(t, updated.value, fulfil); }
    }
  }

  /** Whatever the database holds: an order that loads can be updated and saved again, and keeps every line
   *  and its id. */
  lemma {:induction false} UpdateKeepsLines(
    t: Tables, id: Uuid, fulfil: bool, shipping: Address, billing: Address, payment: Payment, status: Status)
    requires ReferencesHold(t)
    ensures var loaded := ById(t, id);
            loaded.Ok? && IsStatus(status) ==>
              var updated := Updated(loaded.value, shipping, billing, payment, status);
              && updated.Ok?
              && var again := SaveOrder(t, updated.value, fulfil);
                 && again.Committed? && again.tables.items == t.items
                 && again.tables.products == t.products && again.tables.customers == t.customers
  {
    hide SaveOrder, ReferencesHold, ItemsFor;
    if ById(t, id).Ok? && IsStatus(status) {
      assert ById(t, id).value.customerId == t.orders[id].customerId by { hide ScanPayment, AddressFrom, ParseStatus; }
      ResavingKeepsLines(t, ById(t, id).value, shipping, billing, payment, status, fulfil);
    }
  }

  lemma {:induction false} ResavingKeepsLines(
    t: Tables, o: OrderData, shipping: Address, billing: Address, payment: Payment, status: Status, fulfil: bool)
    requires ReferencesHold(t) && o.id in t.orders && o.customerId == t.orders[o.id].customerId && IsStatus(status)
    requires o.items == ItemsFor(t, o.id)
    ensures var u := Updated(o, shipping, billing, payment, status).value;
            var r := SaveOrder(t, u, fulfil);
            && r.Committed? && r.tables.items == t.items
            && r.tables.products == t.products && r.tables.customers == t.customers
  {
    var u := Updated(o, shipping, billing, payment, status).value;
    var w := UpsertOrder(t, u).tables;
    hide ItemsFor, InsertItems, Images;
    assert ItemsFor(w, o.id) == ItemsFor(t, o.id) by { SameItems(t, w, o.id); }
    ReinsertingKeepsLines(w, o.id);
  }

  lemma {:induction false} SameItems(t: Tables, w: Tables, orderId: Uuid)
    requires w.items == t.items
    ensures ItemsFor(w, orderId) == ItemsFor(t, orderId)
  {
    assert ItemIds(w, orderId) == ItemIds(t, orderId);
  }

  /** What was read back is exactly what the table holds for the order. */
  lemma {:induction false} LoadedRows(t: Tables, orderId: Uuid)
    ensures var items := ItemsFor(t, orderId);
            && DistinctIds(items)
            && (forall i :: 0 <= i < |items| ==>
                  && items[i].id in t.items && t.items[items[i].id].orderId == orderId
                  && t.items[items[i].id] == RowOfItem(orderId, items[i]))
            && (forall id :: id in t.items && t.items[id].orderId == orderId ==>
                  exists i :: 0 <= i < |items| && items[i].id == id)
  {
    var ids, items := Ordered(ItemIds(t, orderId)), ItemsFor(t, orderId);
    LoadedIdsAreDistinct(t, orderId);
    hide Ordered;
    forall i | 0 <= i < |items|
      ensures items[i].id in t.items && t.items[items[i].id].orderId == orderId
      ensures t.items[items[i].id] == RowOfItem(orderId, items[i])
    {
      assert ids[i] in ids && ids[i] in ItemIds(t, orderId);
    }
    forall id | id in t.items && t.items[id].orderId == orderId
      ensures exists i :: 0 <= i < |items| && items[i].id == id
    {
      assert id in ItemIds(t, orderId) && id in ids;
      var i :| 0 <= i < |ids| && ids[i] == id;
      assert items[i].id == id;
    }
  }

  /** Clearing an order's lines and inserting what was read back leaves the table as it was. */
  lemma {:induction false} ReinsertingKeepsLines(t: Tables, orderId: Uuid)
    requires forall i :: i in t.items ==> t.items[i].productId in t.products
    ensures InsertItems(ClearItems(t, orderId), orderId, ItemsFor(t, orderId)) == Committed(t)
  {
    var c := ClearItems(t, orderId);
    var items := ItemsFor(t, orderId);
    LoadedRows(t, orderId);
    InsertingLines(c, orderId, items);
    hide InsertItems, ItemsFor;
    var v := InsertItems(c, orderId, items).tables;
    forall id | id in t.items ensures id in v.items && v.items[id] == t.items[id] {
      if t.items[id].orderId == orderId {
        var i :| 0 <= i < |items| && items[i].id == id;
        assert v.items[items[i].id] == RowOfItem(orderId, items[i]);
      }
    }
    assert v.items == t.items;
  }

  // Events.

  function Mapped(events: seq<EventKind>, fulfil: bool): seq<EventKind> {
    if events == [] then []
    else (if events[0].OrderCreated? && !fulfil then [] else [events[0]]) + Mapped(events[1..], fulfil)
  }

  /** The messages about one order, in the order they were committed. */
  function Announced(outbox: seq<OutboxRow>, orderId: Uuid): seq<OutboxRow> {
    if outbox == [] then []
    else (if outbox[0].orderId == orderId then [outbox[0]] else []) + Announced(outbox[1..], orderId)
  }

  function Kinds(rows: seq<OutboxRow>): seq<EventKind> {
    if rows == [] then [] else [rows[0].kind] + Kinds(rows[1..])
  }

  lemma {:induction false} MappedOfConcat(a: seq<EventKind>, b: seq<EventKind>, fulfil: bool)
    ensures Mapped(a + b, fulfil) == Mapped(a, fulfil) + Mapped(b, fulfil)
  {
    if a == [] {
      assert a + b == b;
    } else {
      assert (a + b)[1..] == a[1..] + b;
      MappedOfConcat(a[1..], b, fulfil);
      var first := if a[0].OrderCreated? && !fulfil then [] else [a[0]];
      assert Mapped(a, fulfil) == first + Mapped(a[1..], fulfil);
      assert Mapped(a + b, fulfil) == first + Mapped(a[1..] + b, fulfil);
      hide Mapped;
    }
  }

  lemma {:induction false} AnnouncedOfConcat(a: seq<OutboxRow>, b: seq<OutboxRow>, orderId: Uuid)
    ensures Announced(a + b, orderId) == Announced(a, orderId) + Announced(b, orderId)
  {
    if a == [] {
      assert a + b == b;
    } else {
      assert (a + b)[1..] == a[1..] + b;
      AnnouncedOfConcat(a[1..], b, orderId);
      var first := if a[0].orderId == orderId then [a[0]] else [];
      assert Announced(a, orderId) == first + Announced(a[1..], orderId);
      assert Announced(a + b, orderId) == first + Announced(a[1..] + b, orderId);
      hide Announced;
    }
  }

  lemma {:induction false} KindsOfConcat(a: seq<OutboxRow>, b: seq<OutboxRow>)
    ensures Kinds(a + b) == Kinds(a) + Kinds(b)
  {
    if a == [] {
      assert a + b == b;
    } else {
      assert (a + b)[1..] == a[1..] + b;
      KindsOfConcat(a[1..], b);
    }
  }

  /** The messages of one save are all about the order, carry the mapped events in order, and each of them
   *  the order's total. */
  lemma {:induction false} ImagesAreMapped(o: OrderData, events: seq<EventKind>, fulfil: bool)
    ensures var images := Images(o, events, fulfil);
            && Announced(images, o.id) == images && Kinds(images) == Mapped(events, fulfil)
            && forall i :: 0 <= i < |images| ==>
                 && images[i].orderId == o.id && images[i].total == Total(o.items)
                 && images[i].customerId == o.customerId && images[i].status == StatusName(o.status)
                 && images[i].lines == if images[i].kind.OrderCreated? then LinesOf(o.items) else []
    decreases |events|
  {
    if events != [] {
      ImagesAreMapped(o, events[1..], fulfil);
      var first := Image(o, events[0], fulfil);
      if first != [] { assert first[1..] == []; }
      hide Total, LinesOf, StatusName;
      AnnouncedOfConcat(first, Images(o, events[1..], fulfil), o.id);
      KindsOfConcat(first, Images(o, events[1..], fulfil));
    }
  }

  /** What can happen to one order: the domain changes it, a save commits or fails, other orders' saves add
   *  their own messages, and the order is let go and loaded again. */
  datatype Step =
    | Add(itemId: Uuid, productId: Uuid, quantity: int, price: real)
    | Remove(productId: Uuid)
    | Update(shipping: Address, billing: Address, payment: Payment, status: Status)
    | Save(fails: bool)
    | Others(tables: Tables)
    | Load

  /** `raised` is every event of the order, except those that were lost with an order let go unsaved. */
  datatype Shop = Shop(tables: Tables, order: OrderData, raised: seq<EventKind>)

  /** A save that fails, for a reason of its own or because the database did, changes nothing; events
   *  are dropped only once they are committed. */
  ghost function Take(s: Shop, step: Step, fulfil: bool): Shop {
    match step
    case Add(itemId, productId, quantity, price) =>
      var r := Added(s.order, itemId, productId, quantity, price);
      if r.Ok? then s.(order := r.value) else s
    case Remove(productId) => s.(order := s.order.(items := Domain.Without(s.order.items, productId)))
    case Update(shipping, billing, payment, status) =>
      var r := Updated(s.order, shipping, billing, payment, status);
      if r.Ok? then s.(order := r.value, raised := s.raised + [OrderUpdated]) else s
    case Save(fails) =>
      var r := SaveOrder(s.tables, s.order, fulfil);
      if fails || r.RolledBack? then s else s.(tables := r.tables, order := s.order.(events := []))
    case Others(tables) =>
      if s.tables.outbox <= tables.outbox && Announced(tables.outbox[|s.tables.outbox|..], s.order.id) == []
      then s.(tables := tables) else s
    case Load =>
      var r := ById(s.tables, s.order.id);
      if r.Err? then s
      else Shop(s.tables, r.value, Settled(s))
  }

  /** The events that are not pending any more: the pending ones are the last. */
  function Settled(s: Shop): seq<EventKind> {
    if |s.order.events| <= |s.raised| then s.raised[..|s.raised| - |s.order.events|] else s.raised
  }

  ghost function TakeAll(s: Shop, steps: seq<Step>, fulfil: bool): Shop
    decreases |steps|
  {
    if steps == [] then s else TakeAll(Take(s, steps[0], fulfil), steps[1..], fulfil)
  }
}
