/** Ordering's value objects, the rules that guard them, and the order aggregate.
 *
 *  Amounts are exact decimals, modelled as reals.
 */
module Domain {
  import Histories
  import opened Ids

  datatype Result<T> = Ok(value: T) | Err(reason: string)

  // Text.

  /** White space as Unicode and the original's library define it. */
  predicate IsSpace(c: char) {
    c in ['\t', '\n', '\U{000B}', '\U{000C}', '\r', ' ', '\U{0085}', '\U{00A0}', '\U{1680}', '\U{2028}', '\U{2029}',
          '\U{202F}', '\U{205F}', '\U{3000}']
    || '\U{2000}' <= c <= '\U{200A}'
  }

  function TrimLeft(s: string): string {
    if s != "" && IsSpace(s[0]) then TrimLeft(s[1..]) else s
  }

  function TrimRight(s: string): string {
    if s != "" && IsSpace(s[|s| - 1]) then TrimRight(s[..|s| - 1]) else s
  }

  function Trim(s: string): string {
    TrimRight(TrimLeft(s))
  }

  predicate Blank(s: string) {
    Trim(s) == ""
  }

  predicate AllSpace(s: string) {
    forall i :: 0 <= i < |s| ==> IsSpace(s[i])
  }

  /** t is s without the white space around it. */
  ghost predicate IsTrimmed(s: string, t: string) {
    exists i, j :: IsCore(s, t, i, j)
  }

  predicate IsCore(s: string, t: string, i: nat, j: nat) {
    && i < j <= |s| && t == s[i..j]
    && !IsSpace(s[i]) && !IsSpace(s[j - 1])
    && (forall k :: 0 <= k < i ==> IsSpace(s[k]))
    && (forall k :: j <= k < |s| ==> IsSpace(s[k]))
  }

  lemma {:induction false} TrimLeftDrops(s: string) returns (i: nat)
    ensures i <= |s| && TrimLeft(s) == s[i..] && AllSpace(s[..i]) && (i < |s| ==> !IsSpace(s[i]))
  {
    hide IsSpace;
    if s != "" && IsSpace(s[0]) {
      i := TrimLeftDrops(s[1..]);
      i := i + 1;
      assert forall k :: 0 < k < i ==> s[k] == s[1..][..i - 1][k - 1];
    } else {
      i := 0;
    }
  }

  lemma {:induction false} TrimRightDrops(s: string) returns (j: nat)
    ensures j <= |s| && TrimRight(s) == s[..j] && (0 < j ==> !IsSpace(s[j - 1]))
    ensures forall k :: j <= k < |s| ==> IsSpace(s[k])
  {
    hide IsSpace;
    if s != "" && IsSpace(s[|s| - 1]) {
      j := TrimRightDrops(s[..|s| - 1]);
      assert forall k :: j <= k < |s| - 1 ==> s[k] == s[..|s| - 1][k];
    } else {
      j := |s|;
    }
  }

  /** Trimming leaves what lies between the first and the last character that is no space, and nothing of a text
   *  that has none. */
  lemma {:induction false} TrimTakesTheCore(s: string)
    ensures Blank(s) <==> AllSpace(s)
    ensures if AllSpace(s) then Trim(s) == "" else IsTrimmed(s, Trim(s))
  {
    hide IsSpace, TrimLeft, TrimRight;
    var i := TrimLeftDrops(s);
    var rest := s[i..];
    var j := TrimRightDrops(rest);
    assert forall k :: 0 <= k < i ==> s[k] == s[..i][k];
    forall k | i + j <= k < |s| ensures IsSpace(s[k]) { assert s[k] == rest[k - i]; }
    if i < |s| {
      assert s[i] == rest[0] && j > 0;
      assert s[i + j - 1] == rest[j - 1] && rest[..j] == s[i..i + j];
      assert IsCore(s, Trim(s), i, i + j);
    }
  }

  // Value objects.

  function NotNil(u: Uuid): Result<Uuid> {
    if u == NIL then Err("id cannot be empty") else Ok(u)
  }

  datatype Address = Address(
    firstName: string, lastName: string, emailAddress: string, addressLine: string,
    country: string, state: string, zipCode: string)

  function NewAddress(a: Address): Result<Address> {
    if Blank(a.emailAddress) then Err("EmailAddress is required")
    else if Blank(a.addressLine) then Err("AddressLine is required")
    else Ok(a)
  }

  datatype Payment = Payment(token: string, last4: string, paymentMethod: int)

  const NO_PAYMENT := Payment("", "", 0)

  predicate FourDigits(s: string) {
    |s| == 4 && forall i :: 0 <= i < |s| ==> '0' <= s[i] <= '9'
  }

  function NewPayment(token: string, last4: string, paymentMethod: int): Result<Payment> {
    if Blank(token) then Err("PaymentToken is required")
    else if !FourDigits(last4) then Err("CardLast4 must be the last 4 digits of the card")
    else Ok(Payment(token, last4, paymentMethod))
  }

  type Status = int

  const DRAFT: Status := 1
  const PENDING: Status := 2
  const COMPLETED: Status := 3
  const CANCELLED: Status := 4

  predicate IsStatus(s: Status) {
    1 <= s <= 4
  }

  function StatusName(s: Status): string {
    if s == DRAFT then "Draft"
    else if s == PENDING then "Pending"
    else if s == COMPLETED then "Completed"
    else if s == CANCELLED then "Cancelled"
    else "Unknown"
  }

  function ParseStatus(name: string): Result<Status> {
    if name == StatusName(DRAFT) then Ok(DRAFT)
    else if name == StatusName(PENDING) then Ok(PENDING)
    else if name == StatusName(COMPLETED) then Ok(COMPLETED)
    else if name == StatusName(CANCELLED) then Ok(CANCELLED)
    else Err("unknown order status")
  }

  datatype Customer = Customer(id: Uuid, name: string, email: string)

  function NewCustomer(id: Uuid, name: string, email: string): Result<Customer> {
    if Blank(name) then Err("Name is required")
    else if Blank(email) then Err("Email is required")
    else Ok(Customer(id, name, email))
  }

  datatype Product = Product(id: Uuid, name: string, price: real)

  function NewProduct(id: Uuid, name: string, price: real): Result<Product> {
    if Blank(name) then Err("Name is required")
    else if price <= 0.0 then Err("Price must be greater than zero")
    else Ok(Product(id, name, price))
  }

  // The order.

  datatype OrderItem = OrderItem(id: Uuid, orderId: Uuid, productId: Uuid, quantity: int, price: real)

  datatype EventKind = OrderCreated | OrderUpdated

  /** An order's fields as a value; events are those raised and not yet committed. */
  datatype OrderData = OrderData(
    id: Uuid, customerId: Uuid, shipping: Address, billing: Address, payment: Payment, status: Status,
    items: seq<OrderItem>, events: seq<EventKind>)

  function Amount(item: OrderItem): real {
    item.price * item.quantity as real
  }

  function Total(items: seq<OrderItem>): real {
    if items == [] then 0.0 else Total(items[..|items| - 1]) + Amount(items[|items| - 1])
  }

  /** The items left when a product's lines are dropped. */
  function Without(items: seq<OrderItem>, productId: Uuid): seq<OrderItem> {
    if items == [] then []
    else
      var last := items[|items| - 1];
      Without(items[..|items| - 1], productId) + (if last.productId != productId then [last] else [])
  }

  function Added(o: OrderData, itemId: Uuid, productId: Uuid, quantity: int, price: real): Result<OrderData> {
    if quantity <= 0 then Err("Quantity must be greater than zero")
    else if price <= 0.0 then Err("Price must be greater than zero")
    else Ok(o.(items := o.items + [OrderItem(itemId, o.id, productId, quantity, price)]))
  }

  function Updated(o: OrderData, shipping: Address, billing: Address, payment: Payment, status: Status): Result<OrderData> {
    if !IsStatus(status) then Err("unknown order status")
    else Ok(o.(shipping := shipping, billing := billing, payment := payment, status := status,
               events := o.events + [OrderUpdated]))
  }

  class Order {
    const id: Uuid
    const customerId: Uuid
    var shipping: Address
    var billing: Address
    var payment: Payment
    var status: Status
    var items: seq<OrderItem>
    var events: seq<EventKind>

    function Data(): OrderData
      reads this
    {
      OrderData(id, customerId, shipping, billing, payment, status, items, events)
    }

    constructor (id: Uuid, customerId: Uuid, shipping: Address, billing: Address, payment: Payment, status: Status)
      ensures Data() == OrderData(id, customerId, shipping, billing, payment, status, [], [])
    {
      this.id, this.customerId := id, customerId;
      this.shipping, this.billing, this.payment, this.status := shipping, billing, payment, status;
      items, events := [], [];
    }

    constructor Paid(id: Uuid, customerId: Uuid, shipping: Address, billing: Address, payment: Payment)
      ensures Data() == OrderData(id, customerId, shipping, billing, payment, PENDING, [], [OrderCreated])
    {
      this.id, this.customerId := id, customerId;
      this.shipping, this.billing, this.payment, this.status := shipping, billing, payment, PENDING;
      items, events := [], [OrderCreated];
    }

    /** Not paid for yet, so a draft until a payment is recorded. */
    constructor Unpaid(id: Uuid, customerId: Uuid, shipping: Address, billing: Address)
      ensures Data() == OrderData(id, customerId, shipping, billing, NO_PAYMENT, DRAFT, [], [OrderCreated])
    {
      this.id, this.customerId := id, customerId;
      this.shipping, this.billing, this.payment, this.status := shipping, billing, NO_PAYMENT, DRAFT;
      items, events := [], [OrderCreated];
    }

    /** Rebuilds an order from storage: nothing is raised. */
    constructor Restore(
      id: Uuid, customerId: Uuid, shipping: Address, billing: Address, payment: Payment, status: Status,
      items: seq<OrderItem>)
      ensures Data() == OrderData(id, customerId, shipping, billing, payment, status, items, [])
    {
      this.id, this.customerId := id, customerId;
      this.shipping, this.billing, this.payment, this.status := shipping, billing, payment, status;
      this.items, events := items, [];
    }

    method Raise(event: EventKind)
      modifies this`events
      ensures events == old(events) + [event]
    {
      events := events + [event];
    }

    method PullEvents() returns (pulled: seq<EventKind>)
      modifies this`events
      ensures pulled == old(events) && events == []
    {
      pulled := events;
      events := [];
    }

    method TotalPrice() returns (total: real)
      ensures total == Total(items)
    {
      total := 0.0;
      for i := 0 to |items|
        invariant total == Total(items[..i])
      {
        assert items[..i + 1][..i] == items[..i];
        total := total + items[i].price * items[i].quantity as real;
      }
      assert items[..|items|] == items;
    }

    /** Appends a line, or changes nothing. The line's id is a fresh UUID. */
    method Add(itemId: Uuid, productId: Uuid, quantity: int, price: real) returns (ok: bool)
      modifies this`items
      ensures var r := Added(old(Data()), itemId, productId, quantity, price);
              ok == r.Ok? && Data() == if r.Ok? then r.value else old(Data())
      ensures ok <==> quantity > 0 && price > 0.0
      ensures items == old(items) + if ok then [OrderItem(itemId, id, productId, quantity, price)] else []
    {
      if quantity <= 0 || price <= 0.0 {
        return false;
      }
      items := items + [OrderItem(itemId, id, productId, quantity, price)];
      ok := true;
    }

    /** Drops every line of a product, filtering the list in place. */
    method Remove(productId: Uuid)
      modifies this`items
      ensures Data() == old(Data()).(items := Without(old(items), productId))
    {
      var kept := 0;
      for i := 0 to |items|
        invariant kept <= i && |items| == |old(items)|
        invariant items[..kept] == Without(old(items)[..i], productId)
        invariant items[i..] == old(items)[i..]
      {
        assert old(items)[..i + 1][..i] == old(items)[..i];
        var item := items[i];
        assert item == old(items)[i..][0] && items[i + 1..] == items[i..][1..];
        if item.productId != productId {
          ghost var unread := items[i + 1..];
          items := items[kept := item];
          kept := kept + 1;
          assert items[i + 1..] == unread;
        }
        assert items[i + 1..] == old(items)[i + 1..];
      }
      assert old(items)[..|old(items)|] == old(items);
      items := items[..kept];
    }

    method Update(shipping: Address, billing: Address, payment: Payment, status: Status) returns (ok: bool)
      modifies this
      ensures var r := Updated(old(Data()), shipping, billing, payment, status);
              ok == r.Ok? && Data() == if r.Ok? then r.value else old(Data())
      ensures ok <==> status in {DRAFT, PENDING, COMPLETED, CANCELLED}
      ensures ok ==>
                && this.shipping == shipping && this.billing == billing && this.payment == payment
                && this.status == status && items == old(items) && events == old(events) + [OrderUpdated]
    {
      if !IsStatus(status) {
        return false;
      }
      this.shipping, this.billing, this.payment, this.status := shipping, billing, payment, status;
      Raise(OrderUpdated);
      ok := true;
    }
  }

  // Properties.

  /** Removing a product takes all its lines and no others. */
  lemma {:induction false} RemoveTakesExactlyTheProduct(items: seq<OrderItem>, productId: Uuid, x: OrderItem)
    ensures multiset(Without(items, productId))[x] == if x.productId == productId then 0 else multiset(items)[x]
  {
    if items != [] {
      var init, last := items[..|items| - 1], items[|items| - 1];
      RemoveTakesExactlyTheProduct(init, productId, x);
      var kept := Without(init, productId);
      assert Without(items, productId) == if last.productId != productId then kept + [last] else kept;
      hide Without;
      assert items == init + [last];
    }
  }

  /** The lines that stay keep their order. */
  lemma {:induction false} RemoveKeepsTheOrder(items: seq<OrderItem>, productId: Uuid)
    ensures Histories.Subsequence(Without(items, productId), items)
  {
    if items != [] {
      var init, last := items[..|items| - 1], items[|items| - 1];
      RemoveKeepsTheOrder(init, productId);
      Histories.SubsequenceOfAppend(Without(init, productId), init, last);
      assert items == init + [last];
      assert Without(items, productId)
             == if last.productId != productId then Without(init, productId) + [last] else Without(init, productId);
      hide Histories.Subsequence, Without;
    } else {
      assert Without(items, productId) == [];
    }
  }

  lemma {:induction false} StatusRoundTrip(s: Status)
    requires IsStatus(s)
    ensures ParseStatus(StatusName(s)) == Ok(s)
    ensures (s == 1 ==> StatusName(s) == "Draft") && (s == 2 ==> StatusName(s) == "Pending")
    ensures (s == 3 ==> StatusName(s) == "Completed") && (s == 4 ==> StatusName(s) == "Cancelled")
  {
    assert "Draft"[0] != "Pending"[0] && "Draft"[0] != "Completed"[0] && "Draft"[0] != "Cancelled"[0];
    assert "Pending"[0] != "Completed"[0] && "Pending"[0] != "Cancelled"[0] && "Completed"[1] != "Cancelled"[1];
  }

  lemma {:induction false} TotalOfConcat(a: seq<OrderItem>, b: seq<OrderItem>)
    ensures Total(a + b) == Total(a) + Total(b)
  {
    if b == [] {
      assert a + b == a;
    } else {
      assert (a + b)[..|a + b| - 1] == a + b[..|b| - 1];
      TotalOfConcat(a, b[..|b| - 1]);
    }
  }

  lemma {:induction false} TotalWithoutOne(b: seq<OrderItem>, i: nat)
    requires i < |b|
    ensures Total(b) == Total(b[..i] + b[i + 1..]) + Amount(b[i])
  {
    var front, back := b[..i], b[i + 1..];
    assert Total([b[i]]) == Amount(b[i]) by { assert [b[i]][..0] == []; }
    hide Total, Amount;
    TotalOfConcat(front, [b[i]] + back);
    TotalOfConcat([b[i]], back);
    TotalOfConcat(front, back);
    assert b == front + ([b[i]] + back);
  }

  lemma {:induction false} MultisetWithoutOne<T>(b: seq<T>, i: nat)
    requires i < |b|
    ensures multiset(b[..i] + b[i + 1..]) == multiset(b) - multiset{b[i]}
  {
    assert b == b[..i] + [b[i]] + b[i + 1..];
  }

  lemma {:induction false} FindIn(a: seq<OrderItem>, b: seq<OrderItem>, x: OrderItem) returns (i: nat)
    requires multiset(a) == multiset(b) && x in a
    ensures i < |b| && b[i] == x
  {
    assert x in multiset(b);
    i :| 0 <= i < |b| && b[i] == x;
  }

  /** The total does not depend on the order of the lines. */
  lemma {:induction false} TotalOfPermutation(a: seq<OrderItem>, b: seq<OrderItem>)
    requires multiset(a) == multiset(b)
    ensures Total(a) == Total(b)
    decreases |a|
  {
    hide Total, Amount;
    if a != [] {
      var i := FindIn(a, b, a[0]);
      var as', bs := a[..0] + a[1..], b[..i] + b[i + 1..];
      TotalWithoutOne(a, 0);
      TotalWithoutOne(b, i);
      MultisetWithoutOne(a, 0);
      MultisetWithoutOne(b, i);
      TotalOfPermutation(as', bs);
    } else {
      assert |b| == |multiset(b)| == |multiset(a)| == 0;
    }
  }
}
