/** Ordering's tables, the transactions that change them, and reading an order back.
 *
 *  A transaction is a function of the committed tables: it yields the tables after a commit, or the
 *  reason it was rolled back.
 */
module OrderTables {
  import opened Calls
  import opened Ids
  import opened Domain

  /** A foreign key that points nowhere is told apart from everything else that can go wrong. */
  datatype Failure = MissingReference | Broken

  datatype Transaction = Committed(tables: Tables) | RolledBack(why: Failure)

  datatype AddressColumns = AddressColumns(
    firstName: string, lastName: string, emailAddress: Option<string>, addressLine: string,
    country: string, state: string, zipCode: string)

  datatype OrderRow = OrderRow(
    customerId: Uuid, status: string, shipping: AddressColumns, billing: AddressColumns,
    token: Option<string>, last4: Option<string>, paymentMethod: Option<int>)

  datatype ItemRow = ItemRow(orderId: Uuid, productId: Uuid, quantity: int, price: real)

  datatype CustomerRow = CustomerRow(name: string, email: string)

  datatype ProductRow = ProductRow(name: string, price: real)

  datatype OutboxRow = OutboxRow(
    kind: EventKind, orderId: Uuid, customerId: Uuid, status: string, total: real, lines: seq<(Uuid, int, real)>)

  datatype Tables = Tables(
    customers: map<Uuid, CustomerRow>, products: map<Uuid, ProductRow>,
    orders: map<Uuid, OrderRow>, items: map<Uuid, ItemRow>, outbox: seq<OutboxRow>)

  // Writing.

  function Nullable(s: string): Option<string> {
    if s == "" then None else Some(s)
  }

  function ColumnsOf(a: Address): AddressColumns {
    AddressColumns(a.firstName, a.lastName, Nullable(a.emailAddress), a.addressLine, a.country, a.state, a.zipCode)
  }

  /** No payment is stored as three absent values. */
  function RowOf(o: OrderData): OrderRow {
    var paid := o.payment.token != "";
    OrderRow(o.customerId, StatusName(o.status), ColumnsOf(o.shipping), ColumnsOf(o.billing),
             if paid then Some(o.payment.token) else None,
             if paid then Some(o.payment.last4) else None,
             if paid then Some(o.payment.paymentMethod) else None)
  }

  function UpsertOrder(t: Tables, o: OrderData): Transaction {
    if o.customerId !in t.customers then RolledBack(MissingReference)
    else Committed(t.(orders := t.orders[o.id := RowOf(o)]))
  }

  function ClearItems(t: Tables, orderId: Uuid): Tables {
    t.(items := map i | i in t.items && t.items[i].orderId != orderId :: t.items[i])
  }

  function InsertItem(t: Tables, orderId: Uuid, item: OrderItem): Transaction {
    if item.productId !in t.products then RolledBack(MissingReference)
    else if item.id in t.items then RolledBack(Broken)
    else Committed(t.(items := t.items[item.id := ItemRow(orderId, item.productId, item.quantity, item.price)]))
  }

  function InsertItems(t: Tables, orderId: Uuid, items: seq<OrderItem>): Transaction
    decreases |items|
  {
    if items == [] then Committed(t)
    else
      var r := InsertItem(t, orderId, items[0]);
      if r.RolledBack? then r else InsertItems(r.tables, orderId, items[1..])
  }

  function LinesOf(items: seq<OrderItem>): (lines: seq<(Uuid, int, real)>)
    ensures |lines| == |items|
    ensures forall i :: 0 <= i < |items| ==> lines[i] == (items[i].productId, items[i].quantity, items[i].price)
  {
    seq(|items|, i requires 0 <= i < |items| => (items[i].productId, items[i].quantity, items[i].price))
  }

  method Lines(items: seq<OrderItem>) returns (lines: seq<(Uuid, int, real)>)
    ensures lines == LinesOf(items)
  {
    lines := [];
    for i := 0 to |items|
      invariant lines == LinesOf(items[..i])
    {
      lines := lines + [(items[i].productId, items[i].quantity, items[i].price)];
    }
    assert items[..|items|] == items;
  }

  /** The message a domain event leaves as, if it leaves: new orders are announced only when
   *  fulfilment is switched on. It describes the order as it is when it is saved. */
  function Image(o: OrderData, kind: EventKind, fulfil: bool): seq<OutboxRow> {
    match kind
    case OrderCreated =>
      if fulfil then [OutboxRow(kind, o.id, o.customerId, StatusName(o.status), Total(o.items), LinesOf(o.items))] else []
    case OrderUpdated => [OutboxRow(kind, o.id, o.customerId, StatusName(o.status), Total(o.items), [])]
  }

  function Images(o: OrderData, events: seq<EventKind>, fulfil: bool): seq<OutboxRow> {
    if events == [] then [] else Image(o, events[0], fulfil) + Images(o, events[1..], fulfil)
  }

  function SaveOrder(t: Tables, o: OrderData, fulfil: bool): Transaction {
    var u := UpsertOrder(t, o);
    if u.RolledBack? then u
    else
      var i := InsertItems(ClearItems(u.tables, o.id), o.id, o.items);
      if i.RolledBack? then i
      else Committed(i.tables.(outbox := i.tables.outbox + Images(o, o.events, fulfil)))
  }

  function SaveCustomer(t: Tables, c: Customer): Tables {
    t.(customers := t.customers[c.id := CustomerRow(c.name, c.email)])
  }

  function AddProductIfUnknown(t: Tables, p: Product): Tables {
    if p.id in t.products then t else t.(products := t.products[p.id := ProductRow(p.name, p.price)])
  }

  function AddProducts(t: Tables, products: seq<Product>): Tables {
    if products == [] then t
    else AddProductIfUnknown(AddProducts(t, products[..|products| - 1]), products[|products| - 1])
  }

  function PlaceOrder(t: Tables, o: OrderData, c: Customer, products: seq<Product>, fulfil: bool): Transaction {
    SaveOrder(AddProducts(SaveCustomer(t, c), products), o, fulfil)
  }

  /** Deleting an order takes its lines with it. */
  function DeleteOrder(t: Tables, id: Uuid): Tables {
    ClearItems(t, id).(orders := t.orders - {id})
  }

  // Reading.

  function Deref(s: Option<string>): string {
    if s.None? then "" else s.value
  }

  function AddressFrom(c: AddressColumns): Result<Address> {
    NewAddress(Address(c.firstName, c.lastName, Deref(c.emailAddress), c.addressLine, c.country, c.state, c.zipCode))
  }

  function ScanPayment(row: OrderRow): Result<Payment> {
    if row.token.None? then Ok(NO_PAYMENT)
    else NewPayment(row.token.value, Deref(row.last4), if row.paymentMethod.None? then 0 else row.paymentMethod.value)
  }

  /** Rebuilds an order from its row through the domain's own rules. */
  function ScanOrder(id: Uuid, row: OrderRow): Result<OrderData> {
    var status := ParseStatus(row.status);
    var shipping, billing, payment := AddressFrom(row.shipping), AddressFrom(row.billing), ScanPayment(row);
    if id == NIL || row.customerId == NIL then Err("id cannot be empty")
    else if status.Err? then Err(status.reason)
    else if shipping.Err? then Err(shipping.reason)
    else if billing.Err? then Err(billing.reason)
    else if payment.Err? then Err(payment.reason)
    else Ok(OrderData(id, row.customerId, shipping.value, billing.value, payment.value, status.value, [], []))
  }

  lemma {:induction false} LeastExists(s: set<Uuid>) returns (m: Uuid)
    requires s != {}
    ensures m in s && forall x :: x in s ==> m <= x
    decreases |s|
  {
    var first :| first in s;
    m := first;
    var rest := s - {first};
    if rest != {} {
      var n := LeastExists(rest);
      if n < first { m := n; }
      forall x | x in s ensures m <= x {
        if x != first { assert x in rest; }
      }
    } else {
      assert s == {first};
    }
  }

  ghost function Least(s: set<Uuid>): (m: Uuid)
    requires s != {}
    ensures m in s && forall x :: x in s ==> m <= x
  {
    assert exists m :: m in s && forall x :: x in s ==> m <= x by {
      var m := LeastExists(s);
    }
    var m :| m in s && forall x :: x in s ==> m <= x;
    m
  }

  /** Ids in the order the database sorts them. */
  ghost function Ordered(s: set<Uuid>): (ids: seq<Uuid>)
    ensures forall x :: x in ids <==> x in s
    decreases |s|
  {
    if s == {} then [] else [Least(s)] + Ordered(s - {Least(s)})
  }

  lemma {:induction false} OrderedIncreases(s: set<Uuid>)
    ensures forall i, j :: 0 <= i < j < |Ordered(s)| ==> Ordered(s)[i] < Ordered(s)[j]
    decreases |s|
  {
    if s != {} {
      var m := Least(s);
      var rest := Ordered(s - {m});
      OrderedIncreases(s - {m});
      assert forall i :: 0 <= i < |rest| ==> rest[i] in rest && m < rest[i];
    }
  }

  function ItemIds(t: Tables, orderId: Uuid): set<Uuid> {
    set i | i in t.items && t.items[i].orderId == orderId
  }

  function ItemFrom(id: Uuid, row: ItemRow): OrderItem {
    OrderItem(id, row.orderId, row.productId, row.quantity, row.price)
  }

  function ItemsAt(t: Tables, ids: seq<Uuid>): (items: seq<OrderItem>)
    requires forall i :: 0 <= i < |ids| ==> ids[i] in t.items
    ensures |items| == |ids|
    ensures forall i :: 0 <= i < |ids| ==> items[i] == ItemFrom(ids[i], t.items[ids[i]])
  {
    seq(|ids|, i requires 0 <= i < |ids| => ItemFrom(ids[i], t.items[ids[i]]))
  }

  /** The order's lines, sorted by id. */
  ghost function ItemsFor(t: Tables, orderId: Uuid): seq<OrderItem> {
    var ids := Ordered(ItemIds(t, orderId));
    assert forall i :: 0 <= i < |ids| ==> ids[i] in ids && ids[i] in ItemIds(t, orderId);
    ItemsAt(t, ids)
  }

  predicate LineIsReadable(item: OrderItem) {
    item.id != NIL && item.orderId != NIL && item.productId != NIL
  }

  ghost function ById(t: Tables, id: Uuid): Result<OrderData> {
    if id !in t.orders then Err("not found")
    else
      var order := ScanOrder(id, t.orders[id]);
      var items := ItemsFor(t, id);
      if order.Err? then order
      else if exists i :: 0 <= i < |items| && !LineIsReadable(items[i]) then Err("id cannot be empty")
      else Ok(order.value.(items := items))
  }
}
