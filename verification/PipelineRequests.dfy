/** Whose checkout an order is: every message and every order goes back to a request that was really begun. */
module PipelineRequests {
  import opened Calls
  import opened Ids
  import opened Domain
  import opened Checkout
  import opened Envelopes
  import opened Pipeline
  import opened PipelineInvariant
  import opened PipelineSteps
  import opened PipelineRuns

  /** A request, and the cart its handler was served. */
  datatype Begun = Begun(request: Request, cart: Cart)

  function BegunBy(c: Config, s: System, e: Event): set<Begun> {
    if e.BeginCheckout? && e.cart in s.shop.stored && e.cart.userName == e.request.command.userName
       && Announcement(c, e.request, e.cart).Some?
    then {Begun(e.request, e.cart)} else {}
  }

  /** Every checkout begun in the course of a run. */
  ghost function AllBegun(c: Config, s: System, events: seq<Event>): set<Begun>
    decreases |events|
  {
    if |events| == 0 then {} else BegunBy(c, s, events[0]) + AllBegun(c, Step(c, s, events[0]), events[1..])
  }

  lemma {:induction false} BegunIsAnEvent(c: Config, s: System, events: seq<Event>, b: Begun)
    requires b in AllBegun(c, s, events)
    ensures exists i, h :: 0 <= i < |events| && events[i] == BeginCheckout(h, b.request, b.cart)
    decreases |events|
  {
    hide Step, Announcement;
    if b in BegunBy(c, s, events[0]) {
      assert events[0] == BeginCheckout(events[0].handler, b.request, b.cart);
    } else {
      BegunIsAnEvent(c, Step(c, s, events[0]), events[1..], b);
      var i, h :| 0 <= i < |events| - 1 && events[1..][i] == BeginCheckout(h, b.request, b.cart);
      assert events[i + 1] == BeginCheckout(h, b.request, b.cart);
    }
  }

  /** The envelope is what this checkout announced, whatever time the wire put on it. */
  predicate IsOf(c: Config, b: Begun, e: Envelope) {
    var a := Announcement(c, b.request, b.cart);
    a.Some? && e == a.value.(occurredOn := e.occurredOn)
  }

  /** The envelope is exactly what one of these checkouts announced. */
  ghost predicate IsFresh(c: Config, begun: set<Begun>, e: Envelope) {
    exists b :: b in begun && Announcement(c, b.request, b.cart) == Some(e)
  }

  ghost predicate GoesBack(c: Config, begun: set<Begun>, e: Envelope) {
    exists b :: b in begun && IsOf(c, b, e)
  }

  ghost predicate OrderIsOf(c: Config, b: Begun, p: Placed) {
    exists e, x :: IsOf(c, b, e) && e.payload.Encoded? && p == PlacedBy(e, x)
  }

  ghost predicate OrderGoesBack(c: Config, begun: set<Begun>, p: Placed) {
    exists b :: b in begun && OrderIsOf(c, b, p)
  }

  ghost predicate MessagesGoBack(c: Config, begun: set<Begun>, messages: multiset<Message>) {
    forall m :: m in messages && EnvelopeFrom(m).Some? ==> GoesBack(c, begun, EnvelopeFrom(m).value)
  }

  ghost predicate OrdersGoBack(c: Config, begun: set<Begun>, orders: seq<Placed>) {
    forall i :: 0 <= i < |orders| ==> OrderGoesBack(c, begun, orders[i])
  }

  ghost predicate Traced(c: Config, begun: set<Begun>, s: System) {
    && (forall h :: h in s.shop.handlers ==> IsFresh(c, begun, s.shop.handlers[h].announcement))
    && (forall id :: id in s.outbox.rows ==> IsFresh(c, begun, s.outbox.rows[id].envelope))
    && MessagesGoBack(c, begun, s.broker.queue) && MessagesGoBack(c, begun, s.broker.errors)
    && OrdersGoBack(c, begun, s.ordering.orders)
  }

  lemma {:induction false} MoreBegun(c: Config, some: set<Begun>, all: set<Begun>, s: System)
    requires Traced(c, some, s) && some <= all
    ensures Traced(c, all, s)
  {
    hide IsOf, OrderIsOf, EnvelopeFrom, Announcement;
    forall e: Envelope | IsFresh(c, some, e) ensures IsFresh(c, all, e) {
      var b :| b in some && Announcement(c, b.request, b.cart) == Some(e);
      assert b in all;
    }
    forall e: Envelope | GoesBack(c, some, e) ensures GoesBack(c, all, e) {
      var b :| b in some && IsOf(c, b, e);
      assert b in all;
    }
    forall p: Placed | OrderGoesBack(c, some, p) ensures OrderGoesBack(c, all, p) {
      var b :| b in some && OrderIsOf(c, b, p);
      assert b in all;
    }
    hide GoesBack, IsFresh, OrderGoesBack;
  }

  lemma {:induction false} AtAnyTime(c: Config, begun: set<Begun>, e: Envelope, time: int)
    requires IsFresh(c, begun, e)
    ensures GoesBack(c, begun, e.(occurredOn := time))
  {
    hide Announcement;
    var b :| b in begun && Announcement(c, b.request, b.cart) == Some(e);
    assert IsOf(c, b, e.(occurredOn := time));
  }

  // Steps.

  lemma {:induction false} PublishedGoesBack(c: Config, begun: set<Begun>, s: System, x: Chance)
    requires Invariant(c, s) && Traced(c, begun, s) && s.outbox.relay.Publishing?
    ensures var m := OnWire(s.outbox.relay.now.envelope, x);
            EnvelopeFrom(m).Some? && GoesBack(c, begun, EnvelopeFrom(m).value)
  {
    var e := s.outbox.relay.now.envelope;
    assert Genuine(c, s.shop.stored, e) && IsFresh(c, begun, e) by {
      hide Genuine, IsFresh, Tallied, QueueOk, ErrorsOk, StageOk, CountsOk, OrdersOk, ShopOk, NothingLost,
           OrdersGoBack, MessagesGoBack;
      InHand(s.outbox.rows, s.outbox.relay);
    }
    hide Genuine, Invariant, Traced, OnWire, EnvelopeFrom, GoesBack, IsFresh;
    GenuineOnWire(c, s.shop.stored, e, x);
    AtAnyTime(c, begun, e, x.timestamp);
  }

  lemma {:induction false} RelayTracesRows(c: Config, begun: set<Begun>, s: System, x: Chance)
    requires Invariant(c, s) && Traced(c, begun, s)
    ensures var t := CallStore(c, s.outbox, x);
            forall id :: id in t.rows ==> IsFresh(c, begun, t.rows[id].envelope)
  {
    CallStoreFacts(c, s.outbox, x) by { hide Traced; }
    hide Invariant, CallStore, GoesBack, IsFresh, OrdersGoBack, MessagesGoBack;
  }

  lemma {:induction false} RelayTraces(c: Config, begun: set<Begun>, s: System, x: Chance)
    requires Invariant(c, s) && Traced(c, begun, s)
    ensures Traced(c, begun, Relay(c, s, x))
  {
    hide Invariant, OnWire, CallStore, EnvelopeFrom, GoesBack, IsFresh, OrdersGoBack, Effective;
    if s.outbox.relay.Publishing? { PublishedGoesBack(c, begun, s, x); }
    RelayTracesRows(c, begun, s, x);
  }

  lemma {:induction false} MessagesOfConsume(c: Config, begun: set<Begun>, b: Broker, o: Ordering, x: Chance)
    requires MessagesGoBack(c, begun, b.queue) && MessagesGoBack(c, begun, b.errors)
    requires !o.consumer.Waiting? ==> o.consumer.message in b.queue
    ensures var after := CallBroker(b, o.consumer, x);
            MessagesGoBack(c, begun, after.queue) && MessagesGoBack(c, begun, after.errors)
  {
    if o.consumer.SettingAside? { RejectedCopyStaysReadable(o.consumer.message, x.reason); }
    hide EnvelopeFrom, Rejected, GoesBack, Effective;
  }

  lemma {:induction false} OrdersOfConsume(c: Config, begun: set<Begun>, o: Ordering, x: Chance)
    requires OrdersGoBack(c, begun, o.orders)
    requires o.consumer.Placing? ==> GoesBack(c, begun, o.consumer.envelope)
    ensures OrdersGoBack(c, begun, CallOrdering(o, x).orders)
  {
    hide Orderable, PlacementOf, PlacedBy, IsOf;
    var t := CallOrdering(o, x);
    if t.orders != o.orders {
      var b :| b in begun && IsOf(c, b, o.consumer.envelope);
      assert OrderIsOf(c, b, PlacedBy(o.consumer.envelope, x));
      assert t.orders == o.orders + [PlacedBy(o.consumer.envelope, x)];
      assert OrderGoesBack(c, begun, PlacedBy(o.consumer.envelope, x));
      hide OrderGoesBack, OrderIsOf, CallOrdering;
      forall i | 0 <= i < |t.orders| ensures OrderGoesBack(c, begun, t.orders[i]) {
        if i < |o.orders| { assert t.orders[i] == o.orders[i]; }
      }
    }
  }

  lemma {:induction false} ConsumerHolds(c: Config, s: System)
    requires Invariant(c, s)
    ensures var stage := s.ordering.consumer;
            && (!stage.Waiting? ==> stage.message in s.broker.queue)
            && (stage.Placing? ==> EnvelopeFrom(stage.message) == Some(stage.envelope))
  {
    hide ShopOk, RowsOk, BooksOk, QueueOk, ErrorsOk, OrdersOk, CountsOk, NothingLost, EnvelopeFrom, Acceptable, IsKept;
  }

  lemma {:induction false} ConsumeTraces(c: Config, begun: set<Begun>, s: System, x: Chance)
    requires Invariant(c, s) && Traced(c, begun, s)
    ensures Traced(c, begun, Consume(s, x))
  {
    hide Invariant, EnvelopeFrom, GoesBack, IsFresh, CallOrdering, CallBroker, OrdersGoBack;
    ConsumerHolds(c, s);
    MessagesOfConsume(c, begun, s.broker, s.ordering, x);
    OrdersOfConsume(c, begun, s.ordering, x);
    hide MessagesGoBack;
  }

  lemma {:induction false} CommitTraces(c: Config, begun: set<Begun>, s: System, handler: nat, x: Chance)
    requires Traced(c, begun, s) && handler in s.shop.handlers
    ensures Traced(c, begun, Commit(s, handler, x))
  {
    hide IsFresh, OrdersGoBack, MessagesGoBack, Effective;
  }

  lemma {:induction false} BeginTraces(c: Config, begun: set<Begun>, s: System, handler: nat, r: Request, cart: Cart)
    requires Traced(c, begun, s) && Announcement(c, r, cart).Some?
    ensures Traced(c, begun + {Begun(r, cart)}, s.(shop := s.shop.(
                     handlers := s.shop.handlers[handler := Handler(cart, Announcement(c, r, cart).value)])))
  {
    MoreBegun(c, begun, begun + {Begun(r, cart)}, s);
    assert Begun(r, cart) in begun + {Begun(r, cart)};
    assert IsFresh(c, begun + {Begun(r, cart)}, Announcement(c, r, cart).value) by { hide Announcement; }
    hide IsFresh, OrdersGoBack, MessagesGoBack, Announcement;
  }

  lemma {:induction false} StepTraces(c: Config, begun: set<Begun>, s: System, e: Event)
    requires Invariant(c, s) && Traced(c, begun, s)
    ensures Traced(c, begun + BegunBy(c, s, e), Step(c, s, e))
  {
    hide Invariant, IsFresh, OrdersGoBack, MessagesGoBack, Announcement, Relay, Consume, Commit, IsDue, Stopped, Crashed, Opened;
    assert begun + {} == begun;
    match e
    case BeginCheckout(handler, r, cart) =>
      if BegunBy(c, s, e) != {} { BeginTraces(c, begun, s, handler, r, cart); }
    case CommitCheckout(handler, x) => if handler in s.shop.handlers { CommitTraces(c, begun, s, handler, x); }
    case CallRelay(x) => RelayTraces(c, begun, s, x);
    case CallConsumer(x) => ConsumeTraces(c, begun, s, x);
    case StopRelay => StopTraces(c, s);
    case StopConsumer => assert Crashed(s.ordering).orders == s.ordering.orders by { CrashedWaits(s.ordering); }
    case _ =>
  }

  lemma {:induction false} StopTraces(c: Config, s: System)
    requires Invariant(c, s)
    ensures forall id :: id in Stopped(s.outbox).rows ==>
              id in s.outbox.rows && Stopped(s.outbox).rows[id].envelope == s.outbox.rows[id].envelope
  {
    StopKeeps(c, s.outbox);
    hide Stopped, BooksOk;
  }

  lemma {:induction false} RunTraces(c: Config, begun: set<Begun>, s: System, events: seq<Event>)
    requires Invariant(c, s) && Traced(c, begun, s)
    ensures Traced(c, begun + AllBegun(c, s, events), StepAll(c, s, events))
    decreases |events|
  {
    if |events| == 0 {
      assert begun + {} == begun;
    } else {
      StepTraces(c, begun, s, events[0]);
      StepKeeps(c, s, events[0]);
      hide Step, Traced, Invariant, BegunBy;
      var first, t := BegunBy(c, s, events[0]), Step(c, s, events[0]);
      RunTraces(c, begun + first, t, events[1..]);
      assert begun + first + AllBegun(c, t, events[1..]) == begun + (first + AllBegun(c, t, events[1..]));
    }
  }

  /** The order is for the customer, address and payment of the request, and of the goods of the cart; it brings
   *  the customer under their own name and the cart's products. */
  ghost predicate Fulfils(p: Placed, b: Begun) {
    var o := p.placement.order;
    && o.customerId == b.request.command.customerId
    && o.shipping == b.request.command.address && o.billing == b.request.command.address
    && o.payment == b.request.command.payment
    && SameGoods(o, b.cart)
    && p.placement.customer.id == b.request.command.customerId
    && p.placement.customer.email == b.request.command.address.emailAddress
    && IsNameOf(p.placement.customer.name, b.request.command.address, b.request.command.userName)
    && |p.placement.products| == |b.cart.items|
    && (forall i :: 0 <= i < |b.cart.items| ==>
          p.placement.products[i] == Product(b.cart.items[i].productId, b.cart.items[i].productName, b.cart.items[i].price))
  }

  lemma {:induction false} OrderFulfils(c: Config, b: Begun, p: Placed)
    requires OrderIsOf(c, b, p)
    ensures Fulfils(p, b)
  {
    var e, x :| IsOf(c, b, e) && e.payload.Encoded? && p == PlacedBy(e, x);
    CustomerNameIsNameOf(EventOf(b.request.command, b.cart));
    hide CheckoutId, CartTotal, LinesTotal, Total, Orderable, CheckoutRules, IsNameOf, CustomerName;
    var itemIds := seq<Uuid>(|b.cart.items|, x.itemIds);
    CheckoutKeepsItsMeaning(b.request.command, b.cart, x.orderId, itemIds);
    assert p.placement == PlacementOf(EventOf(b.request.command, b.cart), x.orderId, itemIds);
  }

  lemma {:induction false} ReachableTraced(c: Config, s: System, events: seq<Event>)
    requires Fresh(s)
    ensures Traced(c, AllBegun(c, s, events), StepAll(c, s, events))
  {
    FreshKeeps(c, s);
    assert Traced(c, {}, s);
    hide StepAll, Fresh, Invariant, Traced, AllBegun;
    RunTraces(c, {}, s, events);
    assert {} + AllBegun(c, s, events) == AllBegun(c, s, events);
  }

  /** Every order of every run fulfils a checkout that was begun in that run: its customer, address and payment
   *  are those of one request, and its lines and total those of the cart that request was served. */
  lemma {:induction false} OrdersFulfilBegunCheckouts(c: Config, s: System, events: seq<Event>, i: nat)
    requires Fresh(s) && i < |StepAll(c, s, events).ordering.orders|
    ensures exists b, k, h ::
              && b in AllBegun(c, s, events) && 0 <= k < |events| && events[k] == BeginCheckout(h, b.request, b.cart)
              && Fulfils(StepAll(c, s, events).ordering.orders[i], b)
  {
    ReachableTraced(c, s, events);
    hide StepAll, Fresh, GoesBack, MessagesGoBack, Fulfils, OrderIsOf, AllBegun;
    var p := StepAll(c, s, events).ordering.orders[i];
    assert OrderGoesBack(c, AllBegun(c, s, events), p);
    var b :| b in AllBegun(c, s, events) && OrderIsOf(c, b, p);
    OrderFulfils(c, b, p);
    BegunIsAnEvent(c, s, events, b);
  }

  /** What the checkout's message says: who checked out what, to where, paid how, and at which total. */
  ghost predicate Says(c: Config, b: Begun, e: Envelope) {
    var command, items := b.request.command, b.cart.items;
    && e.id == c.hash(CheckoutName(command.userName, b.cart.version))
    && e.contract == CHECKOUT_SUBMITTED && e.aggregateId == command.userName
    && e.correlationId == b.request.correlationId
    && e.payload.Encoded?
    && var event := e.payload.event;
       && event.userName == command.userName && event.customerId == command.customerId
       && event.shipping == command.address && event.billing == command.address && event.payment == command.payment
       && event.totalPrice == CartTotal(items) && |event.items| == |items|
       && forall i :: 0 <= i < |items| ==>
            event.items[i] == Line(items[i].productId, items[i].productName, items[i].quantity, items[i].price)
  }

  lemma {:induction false} IsOfSays(c: Config, b: Begun, e: Envelope)
    requires IsOf(c, b, e)
    ensures Says(c, b, e)
  {
    hide CheckoutName, CartTotal;
  }

  ghost predicate SaidBy(c: Config, begun: set<Begun>, e: Envelope) {
    exists b :: b in begun && Says(c, b, e)
  }

  /** The row keeps the time of the request as well. */
  ghost predicate SaidInTime(c: Config, begun: set<Begun>, e: Envelope) {
    exists b :: b in begun && Says(c, b, e) && e.occurredOn == b.request.occurredOn
  }

  lemma {:induction false} BackIsSaid(c: Config, begun: set<Begun>, e: Envelope)
    ensures GoesBack(c, begun, e) ==> SaidBy(c, begun, e)
    ensures IsFresh(c, begun, e) ==> SaidInTime(c, begun, e)
  {
    hide Says;
    if GoesBack(c, begun, e) {
      var b :| b in begun && IsOf(c, b, e);
      IsOfSays(c, b, e);
    }
    if IsFresh(c, begun, e) {
      var b :| b in begun && Announcement(c, b.request, b.cart) == Some(e);
      IsOfSays(c, b, e);
    }
  }

  /** Every message still on its way, and every one set aside, says what a checkout begun in the run asked for; in
   *  the outbox table it also has that request's time. */
  lemma {:induction false} MessagesAreOfBegunCheckouts(c: Config, s: System, events: seq<Event>)
    requires Fresh(s)
    ensures var t, begun := StepAll(c, s, events), AllBegun(c, s, events);
            && (forall id :: id in t.outbox.rows ==> SaidInTime(c, begun, t.outbox.rows[id].envelope))
            && (forall m :: m in t.broker.queue || m in t.broker.errors ==>
                  EnvelopeFrom(m).Some? && SaidBy(c, begun, EnvelopeFrom(m).value))
  {
    ReachableTraced(c, s, events);
    ReachableKeeps(c, s, events);
    hide StepAll, Fresh, GoesBack, IsFresh, SaidBy, SaidInTime, OrdersGoBack, AllBegun, ShopOk, RowsOk, BooksOk,
         OrdersOk, CountsOk, StageOk, NothingLost, EnvelopeFrom, Genuine;
    forall e: Envelope
      ensures GoesBack(c, AllBegun(c, s, events), e) ==> SaidBy(c, AllBegun(c, s, events), e)
      ensures IsFresh(c, AllBegun(c, s, events), e) ==> SaidInTime(c, AllBegun(c, s, events), e)
    {
      BackIsSaid(c, AllBegun(c, s, events), e);
    }
  }
}
