/** An order from its making on: what the domain's own constructors and changes establish, and what every
 *  save in between commits.
 */
module OrderRuns {
  import opened Calls
  import opened Ids
  import opened Domain
  import C = Checkout
  import opened OrderTables
  import opened OrderProperties

  // Built through the domain.

  ghost predicate FreshAmong(itemIds: seq<Uuid>) {
    && (forall i, j :: 0 <= i < j < |itemIds| ==> itemIds[i] != itemIds[j])
    && (forall i :: 0 <= i < |itemIds| ==> itemIds[i] != NIL)
  }

  /** An order made of a checkout message meets everything an order has to. */
  lemma {:induction false} PlacementIsConstructed(event: C.CheckoutSubmitted, orderId: Uuid, itemIds: seq<Uuid>)
    requires |itemIds| == |event.items| && orderId != NIL && FreshAmong(itemIds)
    ensures C.Orderable(event) ==> Constructed(C.PlacementOf(event, orderId, itemIds).order)
  {
    hide Blank;
  }

  /** A new order without lines does too, paid or not. */
  lemma {:induction false} NewOrderIsConstructed(
    id: Uuid, customerId: Uuid, shipping: Address, billing: Address, payment: Payment, status: Status,
    events: seq<EventKind>)
    requires id != NIL && customerId != NIL && IsStatus(status)
    requires NewAddress(shipping).Ok? && NewAddress(billing).Ok?
    requires payment == NO_PAYMENT || NewPayment(payment.token, payment.last4, payment.paymentMethod).Ok?
    ensures Constructed(OrderData(id, customerId, shipping, billing, payment, status, [], events))
  {
    hide Blank, NewPayment;
  }

  /** So does every order that loads, whatever the tables hold. */
  lemma {:induction false} LoadedIsConstructed(t: Tables, id: Uuid)
    ensures ById(t, id).Ok? ==> Constructed(ById(t, id).value) && ById(t, id).value.id == id
  {
    if ById(t, id).Ok? {
      var items := ItemsFor(t, id);
      LoadedIdsAreDistinct(t, id);
      LoadedRows(t, id);
      ScannedMeetsRules(id, t.orders[id]);
      hide ItemsFor, ScanOrder, DistinctIds, Blank, NewPayment;
      assert forall i :: 0 <= i < |items| ==> LineIsReadable(items[i]) && items[i].orderId == id;
    }
  }

  lemma {:induction false} ScannedMeetsRules(id: Uuid, row: OrderRow)
    ensures ScanOrder(id, row).Ok? ==>
              var o := ScanOrder(id, row).value;
              && o.id == id != NIL && o.customerId != NIL && IsStatus(o.status) && o.items == []
              && C.AddressRules(o.shipping) && C.AddressRules(o.billing)
              && (o.payment == NO_PAYMENT || NewPayment(o.payment.token, o.payment.last4, o.payment.paymentMethod).Ok?)
  {
    hide Blank;
  }

  /** A line is added under a fresh id, for a product that has one; addresses and payments come out of their
   *  constructors. Quantities, prices and statuses may be anything: the order refuses what it must. */
  ghost predicate IsDomainStep(o: OrderData, step: Step) {
    match step
    case Add(itemId, productId, _, _) =>
      itemId != NIL && productId != NIL && forall i :: 0 <= i < |o.items| ==> o.items[i].id != itemId
    case Update(shipping, billing, payment, _) =>
      && C.AddressRules(shipping) && C.AddressRules(billing)
      && (payment == NO_PAYMENT || NewPayment(payment.token, payment.last4, payment.paymentMethod).Ok?)
    case _ => true
  }

  lemma {:induction false} AddKeepsConstructed(o: OrderData, itemId: Uuid, productId: Uuid, quantity: int, price: real)
    requires Constructed(o) && IsDomainStep(o, Add(itemId, productId, quantity, price))
    ensures var r := Added(o, itemId, productId, quantity, price); r.Ok? ==> Constructed(r.value)
  {
    hide Blank, NewPayment;
  }

  lemma {:induction false} WithoutComesFrom(items: seq<OrderItem>, productId: Uuid)
    requires DistinctIds(items)
    ensures DistinctIds(Domain.Without(items, productId))
    ensures forall x :: x in Domain.Without(items, productId) ==> x in items
  {
    if items != [] {
      var init, last := items[..|items| - 1], items[|items| - 1];
      WithoutComesFrom(init, productId);
      var kept := Domain.Without(init, productId);
      assert items == init + [last];
      assert Domain.Without(items, productId) == if last.productId != productId then kept + [last] else kept;
      hide Domain.Without;
      forall i | 0 <= i < |kept| ensures kept[i].id != last.id {
        assert kept[i] in init;
        var j :| 0 <= j < |init| && init[j] == kept[i];
        assert items[j].id != items[|items| - 1].id;
      }
    }
  }

  lemma {:induction false} RemoveKeepsConstructed(o: OrderData, productId: Uuid)
    requires Constructed(o)
    ensures Constructed(o.(items := Domain.Without(o.items, productId)))
  {
    var kept := Domain.Without(o.items, productId);
    WithoutComesFrom(o.items, productId);
    hide Blank, NewPayment, Domain.Without;
    forall i | 0 <= i < |kept| ensures LineIsReadable(kept[i]) && kept[i].orderId == o.id {
      assert kept[i] in o.items;
    }
  }

  lemma {:induction false} StepKeepsConstructed(s: Shop, step: Step, fulfil: bool)
    requires Constructed(s.order) && IsDomainStep(s.order, step)
    ensures Constructed(Take(s, step, fulfil).order)
  {
    match step
    case Add(itemId, productId, quantity, price) => AddKeepsConstructed(s.order, itemId, productId, quantity, price);
    case Remove(productId) => RemoveKeepsConstructed(s.order, productId);
    case Update(_, _, _, _) => hide Blank, NewPayment, DistinctIds;
    case Save(_) => hide SaveOrder, Blank, NewPayment, DistinctIds;
    case Others(_) =>
    case Load =>
      LoadedIsConstructed(s.tables, s.order.id);
      hide ById, Constructed;
  }

  ghost predicate AreDomainSteps(s: Shop, steps: seq<Step>, fulfil: bool)
    decreases |steps|
  {
    steps != [] ==>
      IsDomainStep(s.order, steps[0]) && AreDomainSteps(Take(s, steps[0], fulfil), steps[1..], fulfil)
  }

  lemma {:induction false} RunKeepsConstructed(s: Shop, steps: seq<Step>, fulfil: bool)
    requires Constructed(s.order) && AreDomainSteps(s, steps, fulfil)
    ensures Constructed(TakeAll(s, steps, fulfil).order)
    decreases |steps|
  {
    if steps != [] {
      StepKeepsConstructed(s, steps[0], fulfil);
      hide Take, Constructed, IsDomainStep;
      RunKeepsConstructed(Take(s, steps[0], fulfil), steps[1..], fulfil);
    }
  }

  /** Every order the domain made or the database gave back, at every point of every run of changes, saves and
   *  reloads: if it can be saved, it reads back with the same customer, addresses, payment, status, lines and
   *  total. */
  lemma {:induction false} OrderReadsBack(s: Shop, steps: seq<Step>, fulfil: bool)
    requires Constructed(s.order)
    ensures var v := TakeAll(s, steps, fulfil);
            var saved := SaveOrder(v.tables, v.order, fulfil);
            AreDomainSteps(s, steps, fulfil) && saved.Committed? ==>
              var r := ById(saved.tables, v.order.id);
              && r.Ok? && r.value == v.order.(items := r.value.items, events := [])
              && multiset(r.value.items) == multiset(v.order.items) && Total(r.value.items) == Total(v.order.items)
  {
    hide Constructed, AreDomainSteps, TakeAll, SaveOrder, ById, Total;
    if AreDomainSteps(s, steps, fulfil) {
      RunKeepsConstructed(s, steps, fulfil);
      var v := TakeAll(s, steps, fulfil);
      if SaveOrder(v.tables, v.order, fulfil).Committed? { SaveThenLoad(v.tables, v.order, fulfil); }
    }
  }
}
