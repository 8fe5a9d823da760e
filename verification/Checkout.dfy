/** A basket becomes a message, and the message becomes an order that means the same.
 */
module Checkout {
  import opened Ids
  import opened Domain

  datatype CartItem = CartItem(quantity: int, color: string, price: real, productId: Uuid, productName: string)

  datatype Cart = Cart(userName: string, items: seq<CartItem>, version: Uuid)

  datatype Line = Line(productId: Uuid, productName: string, quantity: int, unitPrice: real)

  datatype CheckoutCommand = CheckoutCommand(userName: string, customerId: Uuid, address: Address, payment: Payment)

  datatype CheckoutSubmitted = CheckoutSubmitted(
    userName: string, customerId: Uuid, totalPrice: real, items: seq<Line>,
    shipping: Address, billing: Address, payment: Payment)

  // Basket's side.

  function CartTotal(items: seq<CartItem>): real {
    if items == [] then 0.0
    else CartTotal(items[..|items| - 1]) + items[|items| - 1].price * items[|items| - 1].quantity as real
  }

  function LinesOf(items: seq<CartItem>): (lines: seq<Line>)
    ensures |lines| == |items|
    ensures forall i :: 0 <= i < |items| ==>
              lines[i] == Line(items[i].productId, items[i].productName, items[i].quantity, items[i].price)
  {
    seq(|items|, i requires 0 <= i < |items| =>
      Line(items[i].productId, items[i].productName, items[i].quantity, items[i].price))
  }

  /** One address: the checkout bills where it ships. */
  function EventOf(c: CheckoutCommand, cart: Cart): CheckoutSubmitted {
    CheckoutSubmitted(c.userName, c.customerId, CartTotal(cart.items), LinesOf(cart.items), c.address, c.address, c.payment)
  }

  method TotalPrice(cart: Cart) returns (total: real)
    ensures total == CartTotal(cart.items)
  {
    total := 0.0;
    for i := 0 to |cart.items|
      invariant total == CartTotal(cart.items[..i])
    {
      assert cart.items[..i + 1][..i] == cart.items[..i];
      total := total + cart.items[i].price * cart.items[i].quantity as real;
    }
    assert cart.items[..|cart.items|] == cart.items;
  }

  method CheckoutEvent(c: CheckoutCommand, cart: Cart) returns (event: CheckoutSubmitted)
    ensures event == EventOf(c, cart)
  {
    var items := [];
    for i := 0 to |cart.items|
      invariant items == LinesOf(cart.items[..i])
    {
      var item := cart.items[i];
      items := items + [Line(item.productId, item.productName, item.quantity, item.price)];
    }
    assert cart.items[..|cart.items|] == cart.items;
    var total := TotalPrice(cart);
    event := CheckoutSubmitted(c.userName, c.customerId, total, items, c.address, c.address, c.payment);
  }

  /** A coupon takes its amount off the price, never below zero. */
  function Discounted(item: CartItem, amount: int): CartItem {
    item.(price := if item.price - amount as real < 0.0 then 0.0 else item.price - amount as real)
  }

  /** What a coupon may change: the price, by its amount, or down to zero if that is worth more than the price. */
  predicate TakesOff(before: CartItem, after: CartItem, amount: int) {
    && after == before.(price := after.price) && after.price >= 0.0
    && (after.price == before.price - amount as real || (after.price == 0.0 && before.price < amount as real))
  }

  /** Discounts every line, or fails as soon as a lookup does. Each line has its own lookup, and two lookups
   *  of one product may be answered differently. */
  method ApplyDiscounts(cart: Cart, answers: seq<Result<int>>) returns (r: Result<Cart>)
    requires |answers| == |cart.items|
    ensures r.Ok? <==> forall i :: 0 <= i < |answers| ==> answers[i].Ok?
    ensures r.Ok? ==>
              && r.value == cart.(items := r.value.items) && |r.value.items| == |cart.items|
              && forall i :: 0 <= i < |cart.items| ==>
                   && r.value.items[i] == Discounted(cart.items[i], answers[i].value)
                   && TakesOff(cart.items[i], r.value.items[i], answers[i].value)
    ensures r.Err? ==>
              exists i :: 0 <= i < |answers| && answers[i] == Err(r.reason) && forall j :: 0 <= j < i ==> answers[j].Ok?
  {
    var discounted := cart.items;
    for i := 0 to |discounted|
      invariant |discounted| == |cart.items|
      invariant forall j :: 0 <= j < i ==> answers[j].Ok? && discounted[j] == Discounted(cart.items[j], answers[j].value)
      invariant forall j :: i <= j < |cart.items| ==> discounted[j] == cart.items[j]
    {
      var amount := answers[i];
      if amount.Err? {
        return Err(amount.reason);
      }
      var price := discounted[i].price - amount.value as real;
      if price < 0.0 {
        price := 0.0;
      }
      discounted := discounted[i := discounted[i].(price := price)];
    }
    r := Ok(cart.(items := discounted));
  }

  // Ordering's side.

  function LinesTotal(lines: seq<Line>): real {
    if lines == [] then 0.0
    else LinesTotal(lines[..|lines| - 1]) + lines[|lines| - 1].unitPrice * lines[|lines| - 1].quantity as real
  }

  method TotalOf(lines: seq<Line>) returns (total: real)
    ensures total == LinesTotal(lines)
  {
    total := 0.0;
    for i := 0 to |lines|
      invariant total == LinesTotal(lines[..i])
    {
      assert lines[..i + 1][..i] == lines[..i];
      total := total + lines[i].unitPrice * lines[i].quantity as real;
    }
    assert lines[..|lines|] == lines;
  }

  function CustomerName(event: CheckoutSubmitted): string {
    var full := Trim(event.shipping.firstName + " " + event.shipping.lastName);
    if full == "" then event.userName else full
  }

  /** The name a customer goes by: first and last name without white space around them, or the user name if there
   *  is nothing else in them. */
  ghost predicate IsNameOf(name: string, a: Address, userName: string) {
    var full := a.firstName + " " + a.lastName;
    if AllSpace(full) then name == userName else IsTrimmed(full, name)
  }

  lemma {:induction false} CustomerNameIsNameOf(event: CheckoutSubmitted)
    ensures IsNameOf(CustomerName(event), event.shipping, event.userName)
  {
    var full := event.shipping.firstName + " " + event.shipping.lastName;
    TrimTakesTheCore(full);
    if !AllSpace(full) {
      var i: nat, j: nat :| IsCore(full, Trim(full), i, j);
      assert Trim(full) != "";
    }
    hide Trim, AllSpace, IsTrimmed;
  }

  /** What a checkout asks the database to store. */
  datatype Placement = Placement(order: OrderData, customer: Customer, products: seq<Product>)

  predicate LineRules(line: Line) {
    line.productId != NIL && !Blank(line.productName) && line.unitPrice > 0.0 && line.quantity > 0
  }

  predicate AddressRules(a: Address) {
    !Blank(a.emailAddress) && !Blank(a.addressLine)
  }

  /** The rules a checkout has to meet, each of them about the message alone. */
  predicate Orderable(event: CheckoutSubmitted) {
    && event.items != []
    && LinesTotal(event.items) == event.totalPrice
    && event.customerId != NIL
    && !Blank(CustomerName(event))
    && AddressRules(event.shipping) && AddressRules(event.billing)
    && !Blank(event.payment.token) && FourDigits(event.payment.last4)
    && forall i :: 0 <= i < |event.items| ==> LineRules(event.items[i])
  }

  /** The same rules in plain terms. */
  predicate MessageRules(event: CheckoutSubmitted) {
    var ship, bill, payment := event.shipping, event.billing, event.payment;
    && event.items != [] && LinesTotal(event.items) == event.totalPrice && event.customerId != NIL
    && (!AllSpace(ship.firstName + " " + ship.lastName) || !AllSpace(event.userName))
    && !AllSpace(ship.emailAddress) && !AllSpace(ship.addressLine)
    && !AllSpace(bill.emailAddress) && !AllSpace(bill.addressLine)
    && !AllSpace(payment.token) && |payment.last4| == 4 && (forall i :: 0 <= i < 4 ==> '0' <= payment.last4[i] <= '9')
    && forall i :: 0 <= i < |event.items| ==>
         var line := event.items[i];
         line.productId != NIL && !AllSpace(line.productName) && line.unitPrice > 0.0 && line.quantity > 0
  }

  lemma {:induction false} OrderableIffRules(event: CheckoutSubmitted)
    ensures Orderable(event) <==> MessageRules(event)
  {
    NameRule(event);
    TrimTakesTheCore(event.shipping.emailAddress);
    TrimTakesTheCore(event.shipping.addressLine);
    TrimTakesTheCore(event.billing.emailAddress);
    TrimTakesTheCore(event.billing.addressLine);
    TrimTakesTheCore(event.payment.token);
    forall i | 0 <= i < |event.items|
      ensures LineRules(event.items[i]) <==>
                && event.items[i].productId != NIL && !AllSpace(event.items[i].productName)
                && event.items[i].unitPrice > 0.0 && event.items[i].quantity > 0
    {
      TrimTakesTheCore(event.items[i].productName);
      hide Blank, AllSpace, IsTrimmed;
    }
    hide Blank, AllSpace, IsTrimmed, LineRules, LinesTotal, CustomerName;
  }

  function ItemsOf(lines: seq<Line>, orderId: Uuid, itemIds: seq<Uuid>): (items: seq<OrderItem>)
    requires |itemIds| == |lines|
    ensures |items| == |lines|
    ensures forall i :: 0 <= i < |lines| ==>
              items[i] == OrderItem(itemIds[i], orderId, lines[i].productId, lines[i].quantity, lines[i].unitPrice)
  {
    seq(|lines|, i requires 0 <= i < |lines| =>
      OrderItem(itemIds[i], orderId, lines[i].productId, lines[i].quantity, lines[i].unitPrice))
  }

  function ProductsOf(lines: seq<Line>): (products: seq<Product>)
    ensures |products| == |lines|
    ensures forall i :: 0 <= i < |lines| ==>
              products[i] == Product(lines[i].productId, lines[i].productName, lines[i].unitPrice)
  {
    seq(|lines|, i requires 0 <= i < |lines| => Product(lines[i].productId, lines[i].productName, lines[i].unitPrice))
  }

  /** The order an orderable checkout stands for. The ids are fresh UUIDs. */
  function PlacementOf(event: CheckoutSubmitted, orderId: Uuid, itemIds: seq<Uuid>): Placement
    requires |itemIds| == |event.items|
  {
    Placement(
      OrderData(orderId, event.customerId, event.shipping, event.billing, event.payment, PENDING,
                ItemsOf(event.items, orderId, itemIds), [OrderCreated]),
      Customer(event.customerId, CustomerName(event), event.shipping.emailAddress),
      ProductsOf(event.items))
  }

  /** Builds the order step by step, stopping at the first rule that is broken: an order comes out
   *  exactly when the checkout is orderable, and it is the one the checkout stands for. */
  method OrderFrom(event: CheckoutSubmitted, orderId: Uuid, itemIds: seq<Uuid>)
    returns (order: Order?, customer: Customer, products: seq<Product>)
    requires orderId != NIL && |itemIds| == |event.items|
    ensures order != null <==> Orderable(event)
    ensures order != null <==> MessageRules(event)
    ensures order != null ==>
              && fresh(order) && Placement(order.Data(), customer, products) == PlacementOf(event, orderId, itemIds)
              && customer.id == event.customerId && customer.email == event.shipping.emailAddress
              && IsNameOf(customer.name, event.shipping, event.userName)
  {
    OrderableIffRules(event);
    hide MessageRules;
    customer, products := Customer(NIL, "", ""), [];
    if |event.items| == 0 {
      return null, customer, products;
    }
    var linesTotal := TotalOf(event.items);
    if linesTotal != event.totalPrice {
      return null, customer, products;
    }
    var customerId := NotNil(event.customerId);
    if customerId.Err? {
      return null, customer, products;
    }
    var built := NewCustomer(customerId.value, CustomerName(event), event.shipping.emailAddress);
    if built.Err? {
      return null, customer, products;
    }
    customer := built.value;
    order := NewOrder(event, orderId);
    if order == null {
      return null, customer, products;
    }
    var ok;
    ok, products := AddLines(order, event.items, itemIds);
    if !ok {
      return null, customer, products;
    }
    CustomerNameIsNameOf(event);
    hide Trim, IsNameOf, MessageRules, AllSpace;
  }

  /** Adds the lines one by one, stopping at the first that breaks a rule. */
  method AddLines(order: Order, lines: seq<Line>, itemIds: seq<Uuid>) returns (ok: bool, products: seq<Product>)
    requires |itemIds| == |lines| && order.items == []
    modifies order`items
    ensures ok <==> forall i :: 0 <= i < |lines| ==> LineRules(lines[i])
    ensures ok ==>
              products == ProductsOf(lines) &&
              order.Data() == old(order.Data()).(items := ItemsOf(lines, order.id, itemIds))
  {
    hide Blank;
    products := [];
    for i := 0 to |lines|
      invariant forall j :: 0 <= j < i ==> LineRules(lines[j])
      invariant products == ProductsOf(lines[..i])
      invariant order.Data() == old(order.Data()).(items := ItemsOf(lines[..i], order.id, itemIds[..i]))
    {
      var line := lines[i];
      assert lines[..i + 1] == lines[..i] + [line] && itemIds[..i + 1] == itemIds[..i] + [itemIds[i]];
      var productId := NotNil(line.productId);
      if productId.Err? {
        return false, products;
      }
      var product := NewProduct(productId.value, line.productName, line.unitPrice);
      if product.Err? {
        return false, products;
      }
      products := products + [product.value];
      ok := order.Add(itemIds[i], productId.value, line.quantity, line.unitPrice);
      if !ok {
        return false, products;
      }
    }
    assert lines[..|lines|] == lines && itemIds[..|itemIds|] == itemIds;
    ok := true;
  }

  method NewOrder(event: CheckoutSubmitted, orderId: Uuid) returns (order: Order?)
    requires orderId != NIL
    ensures order != null <==>
              && AddressRules(event.shipping) && AddressRules(event.billing)
              && !Blank(event.payment.token) && FourDigits(event.payment.last4)
    ensures order != null ==>
              fresh(order) &&
              order.Data() == OrderData(orderId, event.customerId, event.shipping, event.billing, event.payment,
                                        PENDING, [], [OrderCreated])
  {
    var shipping := NewAddress(event.shipping);
    if shipping.Err? {
      return null;
    }
    var billing := NewAddress(event.billing);
    if billing.Err? {
      return null;
    }
    var payment := NewPayment(event.payment.token, event.payment.last4, event.payment.paymentMethod);
    if payment.Err? {
      return null;
    }
    order := new Order.Paid(orderId, event.customerId, shipping.value, billing.value, payment.value);
  }

  // The meaning survives.

  lemma {:induction false} TotalsAgree(items: seq<CartItem>)
    ensures LinesTotal(LinesOf(items)) == CartTotal(items)
  {
    if items != [] {
      var init := items[..|items| - 1];
      TotalsAgree(init);
      assert LinesOf(items)[..|items| - 1] == LinesOf(init);
    }
  }

  lemma {:induction false} OrderTotal(lines: seq<Line>, orderId: Uuid, itemIds: seq<Uuid>)
    requires |itemIds| == |lines|
    ensures Total(ItemsOf(lines, orderId, itemIds)) == LinesTotal(lines)
  {
    if lines != [] {
      var n := |lines| - 1;
      OrderTotal(lines[..n], orderId, itemIds[..n]);
      assert ItemsOf(lines, orderId, itemIds)[..n] == ItemsOf(lines[..n], orderId, itemIds[..n]);
    }
  }

  /** The rules of a basket checkout: those of the message without the total, which cannot fail. */
  predicate CheckoutRules(c: CheckoutCommand, cart: Cart) {
    && cart.items != []
    && c.customerId != NIL
    && (!AllSpace(c.address.firstName + " " + c.address.lastName) || !AllSpace(c.userName))
    && !AllSpace(c.address.emailAddress) && !AllSpace(c.address.addressLine)
    && !AllSpace(c.payment.token)
    && |c.payment.last4| == 4 && (forall i :: 0 <= i < 4 ==> '0' <= c.payment.last4[i] <= '9')
    && forall i :: 0 <= i < |cart.items| ==> ItemRules(cart.items[i])
  }

  lemma {:induction false} TrimLeftStops(s: string)
    ensures TrimLeft(s) != "" ==> !IsSpace(TrimLeft(s)[0])
  {
    if s != "" && IsSpace(s[0]) { TrimLeftStops(s[1..]); }
  }

  lemma {:induction false} TrimRightStops(s: string)
    ensures TrimRight(s) != "" ==> !IsSpace(TrimRight(s)[|TrimRight(s)| - 1])
    ensures TrimRight(s) <= s
  {
    if s != "" && IsSpace(s[|s| - 1]) { TrimRightStops(s[..|s| - 1]); }
  }

  lemma {:induction false} TrimmedIsNotBlank(s: string)
    requires !Blank(s)
    ensures !Blank(Trim(s))
  {
    TrimLeftStops(s);
    TrimRightStops(TrimLeft(s));
    assert TrimLeft(Trim(s)) == Trim(s);
    assert TrimRight(Trim(s)) == Trim(s);
  }

  lemma {:induction false} NameRule(event: CheckoutSubmitted)
    ensures !Blank(CustomerName(event))
            <==> !AllSpace(event.shipping.firstName + " " + event.shipping.lastName) || !AllSpace(event.userName)
  {
    var full := event.shipping.firstName + " " + event.shipping.lastName;
    TrimTakesTheCore(full);
    TrimTakesTheCore(event.userName);
    if !Blank(full) { TrimmedIsNotBlank(full); }
    hide Trim, AllSpace, IsTrimmed;
  }

  predicate ItemRules(item: CartItem) {
    item.productId != NIL && !AllSpace(item.productName) && item.price > 0.0 && item.quantity > 0
  }

  lemma {:induction false} ItemRulesAreLineRules(items: seq<CartItem>)
    ensures (forall i :: 0 <= i < |items| ==> LineRules(LinesOf(items)[i]))
            <==> (forall i :: 0 <= i < |items| ==> ItemRules(items[i]))
  {
    forall i | 0 <= i < |items| ensures LineRules(LinesOf(items)[i]) <==> ItemRules(items[i]) {
      TrimTakesTheCore(items[i].productName);
      hide Blank, AllSpace, IsTrimmed;
    }
    hide Blank, AllSpace;
  }

  /** For every cart and command: the total Ordering recomputes is the one Basket sent, an order comes
   *  out exactly when the checkout's own rules hold, and it has the cart's lines in order and the
   *  cart's total. */
  lemma {:induction false} CheckoutKeepsItsMeaning(c: CheckoutCommand, cart: Cart, orderId: Uuid, itemIds: seq<Uuid>)
    requires |itemIds| == |cart.items|
    ensures var event := EventOf(c, cart);
            && LinesTotal(event.items) == event.totalPrice
            && (Orderable(event) <==> CheckoutRules(c, cart))
            && var order := PlacementOf(event, orderId, itemIds).order;
               && Total(order.items) == CartTotal(cart.items) && |order.items| == |cart.items|
               && forall i :: 0 <= i < |cart.items| ==>
                    && order.items[i].productId == cart.items[i].productId
                    && order.items[i].quantity == cart.items[i].quantity
                    && order.items[i].price == cart.items[i].price
  {
    var event := EventOf(c, cart);
    TrimTakesTheCore(c.address.emailAddress);
    TrimTakesTheCore(c.address.addressLine);
    TrimTakesTheCore(c.payment.token);
    hide Blank, AllSpace, IsTrimmed, CartTotal, LinesTotal, Total, CustomerName;
    TotalsAgree(cart.items);
    OrderTotal(event.items, orderId, itemIds);
    NameRule(event);
    ItemRulesAreLineRules(cart.items);
  }

  /** A coupon worth the whole price makes the line free, and a checkout with a free line is refused. */
  lemma {:induction false} FreeLineIsRefused(c: CheckoutCommand, cart: Cart, i: nat, amount: int)
    requires i < |cart.items| && cart.items[i].price <= amount as real
    ensures var discounted := cart.(items := cart.items[i := Discounted(cart.items[i], amount)]);
            !Orderable(EventOf(c, discounted))
  {
    var items := cart.items[i := Discounted(cart.items[i], amount)];
    assert !LineRules(LinesOf(items)[i]);
  }
}
