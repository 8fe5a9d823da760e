/** What holds of the checkout pipeline over every run: no committed checkout is lost, one basket makes
 *  one order unless a delivery was cut short, an order is of a basket that was really stored, and the
 *  relay's books add up.
 */
module PipelineRuns {
  import opened Calls
  import opened Ids
  import opened Domain
  import opened Checkout
  import opened Envelopes
  import opened Pipeline
  import opened PipelineInvariant
  import opened PipelineSteps
  import Cache = BasketCache

  /** Before the first checkout, with any baskets already stored under versions of their own. */
  ghost predicate Fresh(s: System) {
    && s.shop.handlers == map[]
    && (forall u :: u in s.shop.table ==> Cache.CartOf(u, s.shop.table[u]) in s.shop.stored)
    && (forall a :: a in s.shop.stored ==> a.version != NIL && a.version in s.shop.versions)
    && (forall a, b :: a in s.shop.stored && b in s.shop.stored && a.version == b.version ==> a == b)
    && s.outbox == Outbox(map[], Idle, [], {})
    && s.broker == Broker(multiset{}, multiset{})
    && s.ordering == Ordering(map[], [], multiset{}, Waiting)
    && s.committed == {}
  }

  lemma {:induction false} FreshKeeps(c: Config, s: System)
    requires Fresh(s)
    ensures Invariant(c, s)
  {
  }

  /** Every state a run can reach satisfies the invariant. */
  lemma {:induction false} ReachableKeeps(c: Config, s: System, events: seq<Event>)
    requires Fresh(s)
    ensures Invariant(c, StepAll(c, s, events))
  {
    FreshKeeps(c, s);
    RunKeeps(c, s, events);
  }

  lemma {:induction false} StepAllOfConcat(c: Config, s: System, a: seq<Event>, b: seq<Event>)
    ensures StepAll(c, s, a + b) == StepAll(c, StepAll(c, s, a), b)
    decreases |a|
  {
    hide Step;
    if a == [] {
      assert a + b == b;
    } else {
      assert (a + b)[1..] == a[1..] + b;
      StepAllOfConcat(c, Step(c, s, a[0]), a[1..], b);
    }
  }

  // Conservation.

  /** Where a committed checkout can be. */
  ghost predicate Somewhere(s: System, id: Uuid) {
    || id in s.outbox.rows
    || (exists m :: m in s.broker.queue && Carries(m, id))
    || (exists m :: m in s.broker.errors && Carries(m, id))
    || (exists i :: 0 <= i < |s.ordering.orders| && s.ordering.orders[i].messageId == id)
  }

  lemma {:induction false} CommittedStays(c: Config, s: System, events: seq<Event>)
    ensures s.committed <= StepAll(c, s, events).committed
    decreases |events|
  {
    if |events| != 0 {
      assert s.committed <= Step(c, s, events[0]).committed;
      hide Step;
      CommittedStays(c, Step(c, s, events[0]), events[1..]);
    }
  }

  /** From the moment a checkout takes effect - whether or not its caller was told - its message is in
   *  the outbox table, the consumer's queue, the error queue or an order, through every crash,
   *  redelivery and failure that follows. */
  lemma {:induction false} CheckoutIsNeverLost(c: Config, s: System, before: seq<Event>, handler: nat, x: Chance,
                                               after: seq<Event>)
    requires Fresh(s)
    requires var u := StepAll(c, s, before);
             handler in u.shop.handlers && u.shop.handlers[handler].cart.userName in u.shop.table && Effective(x.outcome)
    ensures var u := StepAll(c, s, before);
            var t := StepAll(c, Step(c, u, CommitCheckout(handler, x)), after);
            Somewhere(t, u.shop.handlers[handler].announcement.id)
  {
    var u := StepAll(c, s, before);
    var v := Step(c, u, CommitCheckout(handler, x));
    var t := StepAll(c, v, after);
    var id := u.shop.handlers[handler].announcement.id;
    assert id in v.committed;
    hide Step;
    ReachableKeeps(c, s, before);
    StepKeeps(c, u, CommitCheckout(handler, x));
    RunKeeps(c, v, after);
    CommittedStays(c, v, after);
    InvariantLosesNothing(c, t, id);
  }

  lemma {:induction false} InvariantLosesNothing(c: Config, s: System, id: Uuid)
    requires Invariant(c, s) && id in s.committed
    ensures Somewhere(s, id)
  {
    hide ShopOk, RowsOk, BooksOk, QueueOk, ErrorsOk, OrdersOk, CountsOk, StageOk, Carries;
  }

  function HasBasket(s: System, user: string): nat {
    if user in s.shop.table then 1 else 0
  }

  /** How many baskets of the user one step stores, and how many it checks out. */
  function Stores(s: System, e: Event, user: string): nat {
    if e.StoreBasket? && e.cart.userName == user && e.cart.version != NIL && e.cart.version !in s.shop.versions
    then 1 else 0
  }

  function CheckedOut(s: System, e: Event, user: string): nat {
    if e.CommitCheckout? && e.handler in s.shop.handlers && s.shop.handlers[e.handler].cart.userName == user
       && user in s.shop.table && Effective(e.x.outcome)
    then 1 else 0
  }

  ghost function AllStores(c: Config, s: System, events: seq<Event>, user: string): nat
    decreases |events|
  {
    if |events| == 0 then 0 else Stores(s, events[0], user) + AllStores(c, Step(c, s, events[0]), events[1..], user)
  }

  ghost function AllCheckedOut(c: Config, s: System, events: seq<Event>, user: string): nat
    decreases |events|
  {
    if |events| == 0 then 0
    else CheckedOut(s, events[0], user) + AllCheckedOut(c, Step(c, s, events[0]), events[1..], user)
  }

  lemma {:induction false} BasketsOfStep(c: Config, s: System, e: Event, user: string)
    ensures CheckedOut(s, e, user) + HasBasket(Step(c, s, e), user) <= HasBasket(s, user) + Stores(s, e, user)
  {
    hide Announcement, Record, IsDue, CallStore, CallOrdering, CallBroker, Stopped, Crashed, OnWire, Opened;
  }

  /** However many requests race on them, a user's checkouts that take effect never outnumber the baskets
   *  the user stored: a basket can be checked out once. */
  lemma {:induction false} ABasketIsCheckedOutOnce(c: Config, s: System, events: seq<Event>, user: string)
    ensures AllCheckedOut(c, s, events, user) + HasBasket(StepAll(c, s, events), user)
            <= HasBasket(s, user) + AllStores(c, s, events, user)
    decreases |events|
  {
    if |events| != 0 {
      BasketsOfStep(c, s, events[0], user);
      hide Step, Stores, CheckedOut, HasBasket;
      ABasketIsCheckedOutOnce(c, Step(c, s, events[0]), events[1..], user);
    }
  }

  /** The consumer never finds one of Basket's messages unreadable, whatever integer encoding the wire
   *  chose. */
  lemma {:induction false} NothingIsDiscarded(c: Config, s: System, events: seq<Event>)
    requires Fresh(s)
    ensures var t := StepAll(c, s, events);
            && !t.ordering.consumer.Discarding?
            && forall m :: m in t.broker.queue ==> EnvelopeFrom(m).Some? && !Opened(m).Discarding?
  {
    ReachableKeeps(c, s, events);
    hide StepAll, EnvelopeFrom, ShopOk, RowsOk, BooksOk, ErrorsOk, OrdersOk, CountsOk, NothingLost, Genuine;
  }

  /** A message is set aside only if it is of a stored basket whose checkout breaks a rule. */
  lemma {:induction false} OnlyBrokenCheckoutsAreSetAside(c: Config, s: System, events: seq<Event>, m: Message)
    requires Fresh(s) && m in StepAll(c, s, events).broker.errors
    ensures exists r: Request, cart ::
              && cart in StepAll(c, s, events).shop.stored && cart.userName == r.command.userName
              && EnvelopeFrom(m) == Announcement(c, r, cart) && !CheckoutRules(r.command, cart)
  {
    ReachableKeeps(c, s, events);
    var t := StepAll(c, s, events);
    hide StepAll, EnvelopeFrom, ShopOk, RowsOk, BooksOk, QueueOk, OrdersOk, CountsOk, StageOk, NothingLost;
    var e := EnvelopeFrom(m).value;
    var cart :| cart in t.shop.stored && Announces(c, cart, e);
    var r: Request :| r.command.userName == cart.userName && Announcement(c, r, cart) == Some(e);
    RulesDecide(c, r, cart);
  }

  lemma {:induction false} RulesDecide(c: Config, r: Request, cart: Cart)
    requires Announcement(c, r, cart).Some?
    ensures Acceptable(Announcement(c, r, cart).value.payload) <==> CheckoutRules(r.command, cart)
  {
    var itemIds := seq<Uuid>(|cart.items|, _ => NIL);
    hide Orderable, CheckoutRules, CheckoutId, PlacementOf, CartTotal, LinesTotal, Total;
    CheckoutKeepsItsMeaning(r.command, cart, NIL, itemIds);
  }

  // One basket, one order.

  /** The orders placed for one message are its completion, the deliveries that placed but did not
   *  complete, and the one in progress; a completed message has an order. */
  lemma {:induction false} OrdersPerMessage(c: Config, s: System, events: seq<Event>, id: Uuid)
    requires Fresh(s)
    ensures var o := StepAll(c, s, events).ordering;
            && Count(o.orders, id) == (if Completed(o, id) then 1 else 0) + o.incomplete[id]
                                      + (if o.consumer.Completing? && o.consumer.envelope.id == id then 1 else 0)
            && Count(o.orders, id) <= 1 + o.incomplete[id]
            && (Completed(o, id) ==> exists i :: 0 <= i < |o.orders| && o.orders[i].messageId == id)
  {
    ReachableKeeps(c, s, events);
    var o := StepAll(c, s, events).ordering;
    assert CountsOk(o);
    assert o.consumer.Completing? ==> !Completed(o, o.consumer.envelope.id) by {
      hide StepAll, ShopOk, RowsOk, BooksOk, QueueOk, ErrorsOk, OrdersOk, CountsOk, NothingLost, IsKept, EnvelopeFrom;
    }
    hide StepAll, Invariant;
    CountedOrderExists(o.orders, id);
  }

  /** How many orders are of checkouts of this very basket. */
  ghost function MadeFrom(c: Config, orders: seq<Placed>, cart: Cart): nat {
    if orders == [] then 0
    else MadeFrom(c, orders[..|orders| - 1], cart) + if OrderOf(c, cart, orders[|orders| - 1]) then 1 else 0
  }

  lemma {:induction false} OrderOfBasket(c: Config, cart: Cart, p: Placed)
    requires OrderOf(c, cart, p)
    ensures p.messageId == CheckoutId(c.hash, cart.userName, cart.version)
  {
    var e, x :| Announces(c, cart, e) && e.payload.Encoded? && p == PlacedBy(e, x);
    AnnouncedFacts(c, cart, e);
    hide Announces, CheckoutId, PlacementOf;
  }

  lemma {:induction false} MadeFromIsCounted(c: Config, orders: seq<Placed>, cart: Cart)
    ensures MadeFrom(c, orders, cart) <= Count(orders, CheckoutId(c.hash, cart.userName, cart.version))
  {
    if orders != [] {
      var last := orders[|orders| - 1];
      if OrderOf(c, cart, last) { OrderOfBasket(c, cart, last); }
      hide OrderOf, CheckoutId;
      MadeFromIsCounted(c, orders[..|orders| - 1], cart);
    }
  }

  /** Under every interleaving of handlers, relay and consumer: the orders made from one basket version
   *  number at most one more than the deliveries of its message that placed but did not complete. A
   *  double click, a retried checkout, a republished or redelivered message add nothing. */
  lemma {:induction false} OneBasketOneOrder(c: Config, s: System, events: seq<Event>, cart: Cart)
    requires Fresh(s)
    ensures var o := StepAll(c, s, events).ordering;
            MadeFrom(c, o.orders, cart) <= 1 + o.incomplete[CheckoutId(c.hash, cart.userName, cart.version)]
  {
    OrdersPerMessage(c, s, events, CheckoutId(c.hash, cart.userName, cart.version));
    MadeFromIsCounted(c, StepAll(c, s, events).ordering.orders, cart);
    hide StepAll, CheckoutId, Count, MadeFrom;
  }

  /** The order has the basket's lines in order, the basket's total and the customer asked for. */
  predicate SameGoods(order: OrderData, cart: Cart) {
    && Total(order.items) == CartTotal(cart.items) && |order.items| == |cart.items|
    && forall i :: 0 <= i < |cart.items| ==>
         && order.items[i].productId == cart.items[i].productId
         && order.items[i].quantity == cart.items[i].quantity
         && order.items[i].price == cart.items[i].price
  }

  lemma {:induction false} OrderHasGoods(c: Config, cart: Cart, p: Placed)
    requires OrderOf(c, cart, p)
    ensures SameGoods(p.placement.order, cart)
  {
    var e, x :| Announces(c, cart, e) && e.payload.Encoded? && p == PlacedBy(e, x);
    var r: Request :| r.command.userName == cart.userName && Announcement(c, r, cart) == Some(e);
    hide CheckoutId, CartTotal, LinesTotal, Total, Orderable, CheckoutRules;
    var itemIds := seq<Uuid>(|cart.items|, x.itemIds);
    CheckoutKeepsItsMeaning(r.command, cart, x.orderId, itemIds);
    assert p.placement == PlacementOf(EventOf(r.command, cart), x.orderId, itemIds);
  }

  /** Every order, in every run, is of a basket some customer really stored: it carries that basket's
   *  id, lines and total. */
  lemma {:induction false} OrdersAreOfStoredBaskets(c: Config, s: System, events: seq<Event>, i: nat)
    requires Fresh(s) && i < |StepAll(c, s, events).ordering.orders|
    ensures var t := StepAll(c, s, events);
            var p := t.ordering.orders[i];
            exists cart :: cart in t.shop.stored && OrderOf(c, cart, p) && SameGoods(p.placement.order, cart)
                           && p.messageId == CheckoutId(c.hash, cart.userName, cart.version)
  {
    ReachableKeeps(c, s, events);
    var t := StepAll(c, s, events);
    assert OrdersOk(c, t.shop.stored, t.ordering.orders);
    hide StepAll, Invariant, OrderOf, SameGoods, CheckoutId;
    var cart :| cart in t.shop.stored && OrderOf(c, cart, t.ordering.orders[i]);
    OrderOfBasket(c, cart, t.ordering.orders[i]);
    OrderHasGoods(c, cart, t.ordering.orders[i]);
  }

  /** The hash tells apart the names of any two baskets that were ever stored. */
  ghost predicate Collisionless(c: Config, stored: set<Cart>) {
    forall a, b :: a in stored && b in stored ==>
      (c.hash(CheckoutName(a.userName, a.version)) == c.hash(CheckoutName(b.userName, b.version)) ==>
         CheckoutName(a.userName, a.version) == CheckoutName(b.userName, b.version))
  }

  /** Without collisions the message id identifies the basket, so a basket that was filled again is
   *  never taken for the one checked out before. */
  lemma {:induction false} IdIdentifiesBasket(c: Config, s: System, events: seq<Event>, a: Cart, b: Cart)
    requires Fresh(s) && Collisionless(c, StepAll(c, s, events).shop.stored)
    requires a in StepAll(c, s, events).shop.stored && b in StepAll(c, s, events).shop.stored
    ensures CheckoutId(c.hash, a.userName, a.version) == CheckoutId(c.hash, b.userName, b.version) <==> a == b
  {
    ReachableKeeps(c, s, events);
    var t := StepAll(c, s, events);
    hide StepAll, RowsOk, BooksOk, QueueOk, ErrorsOk, OrdersOk, CountsOk, StageOk, NothingLost, CheckoutName, Announces;
    CheckoutNameIsInjective(a.userName, a.version, b.userName, b.version);
  }

  /** Two orders placed for one message are of the same basket, lines and total alike. */
  lemma {:induction false} RepeatedOrderIsTheSameBasket(c: Config, s: System, events: seq<Event>, i: nat, j: nat)
    requires Fresh(s) && Collisionless(c, StepAll(c, s, events).shop.stored)
    requires i < |StepAll(c, s, events).ordering.orders| && j < |StepAll(c, s, events).ordering.orders|
    requires StepAll(c, s, events).ordering.orders[i].messageId == StepAll(c, s, events).ordering.orders[j].messageId
    ensures var t := StepAll(c, s, events);
            exists cart :: cart in t.shop.stored && SameGoods(t.ordering.orders[i].placement.order, cart)
                           && SameGoods(t.ordering.orders[j].placement.order, cart)
  {
    OrdersAreOfStoredBaskets(c, s, events, i);
    OrdersAreOfStoredBaskets(c, s, events, j);
    var t := StepAll(c, s, events);
    var p, q := t.ordering.orders[i], t.ordering.orders[j];
    hide StepAll, SameGoods, OrderOf, CheckoutId, Fresh, Collisionless;
    var a :| a in t.shop.stored && OrderOf(c, a, p) && SameGoods(p.placement.order, a)
             && p.messageId == CheckoutId(c.hash, a.userName, a.version);
    var b :| b in t.shop.stored && OrderOf(c, b, q) && SameGoods(q.placement.order, b)
             && q.messageId == CheckoutId(c.hash, b.userName, b.version);
    IdIdentifiesBasket(c, s, events, a, b);
  }

  // The bound is reached.

  /** Ordering's side of a delivery that is cut short after placing, and of its redelivery. */
  lemma {:induction false} PlacedAgain(o: Ordering, m: Message, e: Envelope)
    requires o.consumer == Completing(m, e) && e.id in o.inbox && !o.inbox[e.id] && Acceptable(e.payload)
    ensures var good := Ending(Succeeds);
            var t := CallOrdering(CallOrdering(CallOrdering(Crashed(o).(consumer := Claiming(m, e)), good), good), good);
            t.consumer == o.consumer && t.orders == o.orders + [PlacedBy(e, good)]
  {
    hide PlacedBy, Orderable;
    var good := Ending(Succeeds);
    var o1 := Crashed(o);
    var o2 := CallOrdering(o1.(consumer := Claiming(m, e)), good);
    assert o2 == o1.(consumer := Asking(m, e));
    assert CallOrdering(o2, good) == o1.(consumer := Placing(m, e));
  }

  lemma {:induction false} QuietConsume(s: System, o: Ordering, x: Chance)
    requires o.consumer.Claiming? || o.consumer.Asking? || o.consumer.Placing?
    ensures Consume(s.(ordering := o), x) == s.(ordering := CallOrdering(o, x))
  {
    hide CallOrdering;
  }

  lemma {:induction false} ClaimedAgain(o: Ordering, m: Message, e: Envelope)
    requires e.id in o.inbox && !o.inbox[e.id] && Acceptable(e.payload)
    ensures var good := Ending(Succeeds);
            var asking := CallOrdering(o.(consumer := Claiming(m, e)), good);
            asking.consumer.Asking? && CallOrdering(asking, good).consumer.Placing?
  {
    hide Orderable;
  }

  lemma {:induction false} PlacedOnceMore(c: Config, s: System)
    requires Invariant(c, s) && s.ordering.consumer.Completing?
    ensures var m, e, good := s.ordering.consumer.message, s.ordering.consumer.envelope, Ending(Succeeds);
            var t := StepAll(c, s, [StopConsumer, Deliver(m), CallConsumer(good), CallConsumer(good), CallConsumer(good)]);
            && Count(t.ordering.orders, e.id) == Count(s.ordering.orders, e.id) + 1
            && t.ordering.consumer == s.ordering.consumer && t.broker == s.broker
  {
    var m, e, good := s.ordering.consumer.message, s.ordering.consumer.envelope, Ending(Succeeds);
    CompletingFacts(c, s);
    PlacedAgain(s.ordering, m, e);
    CountOfAppend(s.ordering.orders, PlacedBy(e, good), e.id);
    PlacedId(e, good);
    assert Opened(m) == Claiming(m, e);
    CrashedWaits(s.ordering);
    var o1 := Crashed(s.ordering);
    ClaimedAgain(o1, m, e);
    hide CallOrdering, EnvelopeFrom, Acceptable, Count, PlacedBy, Invariant, Crashed, Opened, Consume;
    var o2 := o1.(consumer := Claiming(m, e));
    var o3 := CallOrdering(o2, good);
    QuietConsume(s, o2, good);
    QuietConsume(s, o3, good);
    QuietConsume(s, CallOrdering(o3, good), good);
    RedeliverySteps(c, s, m, e);
    hide Step;
    FiveSteps(c, s, [StopConsumer, Deliver(m), CallConsumer(good), CallConsumer(good), CallConsumer(good)]);
    hide StepAll;
  }

  /** Over every run: a consumer that stops between placing the order and completing the message places
   *  it again when the message is redelivered, so the bound of one order more per incomplete delivery is
   *  reached, and can be reached again. */
  lemma {:induction false} IncompleteDeliveryRepeatsTheOrder(c: Config, s: System, events: seq<Event>)
    requires Fresh(s)
    ensures var u := StepAll(c, s, events);
            u.ordering.consumer.Completing? ==>
              var m, e, good := u.ordering.consumer.message, u.ordering.consumer.envelope, Ending(Succeeds);
              var t := StepAll(c, u, [StopConsumer, Deliver(m), CallConsumer(good), CallConsumer(good), CallConsumer(good)]);
              && Count(t.ordering.orders, e.id) == Count(u.ordering.orders, e.id) + 1
              && t.ordering.consumer == u.ordering.consumer && t.broker == u.broker
  {
    ReachableKeeps(c, s, events);
    hide StepAll, Count, Invariant;
    if StepAll(c, s, events).ordering.consumer.Completing? {
      PlacedOnceMore(c, StepAll(c, s, events));
    }
  }

  lemma {:induction false} RedeliverySteps(c: Config, s: System, m: Message, e: Envelope)
    requires m in s.broker.queue && Opened(m) == Claiming(m, e) && Crashed(s.ordering).consumer.Waiting?
    ensures Step(c, Step(c, s, StopConsumer), Deliver(m))
            == s.(ordering := Crashed(s.ordering).(consumer := Claiming(m, e)))
    ensures forall t, x :: Step(c, t, CallConsumer(x)) == Consume(t, x)
  {
    hide Crashed, Opened, Consume;
  }

  lemma {:induction false} CrashedWaits(o: Ordering)
    ensures Crashed(o).consumer.Waiting? && Crashed(o).inbox == o.inbox && Crashed(o).orders == o.orders
  {
  }

  lemma {:induction false} CompletingFacts(c: Config, s: System)
    requires Invariant(c, s) && s.ordering.consumer.Completing?
    ensures var m, e := s.ordering.consumer.message, s.ordering.consumer.envelope;
            && e.id in s.ordering.inbox && !s.ordering.inbox[e.id] && Acceptable(e.payload)
            && EnvelopeFrom(m) == Some(e) && m in s.broker.queue && e.id != NIL
  {
    hide EnvelopeFrom, Announces;
    var e := s.ordering.consumer.envelope;
    var cart :| cart in s.shop.stored && Announces(c, cart, e);
    AnnouncedFacts(c, cart, e);
  }

  lemma {:induction false} FiveSteps(c: Config, s: System, e: seq<Event>)
    requires |e| == 5
    ensures StepAll(c, s, e) == Step(c, Step(c, Step(c, Step(c, Step(c, s, e[0]), e[1]), e[2]), e[3]), e[4])
  {
    hide Step;
    var s1 := Step(c, s, e[0]);
    var s2 := Step(c, s1, e[1]);
    var s3 := Step(c, s2, e[2]);
    var s4 := Step(c, s3, e[3]);
    forall i | 0 <= i < 5 ensures e[i..][0] == e[i] && e[i..][1..] == e[i + 1..] {}
    assert StepAll(c, s, e) == StepAll(c, s1, e[1..]) == StepAll(c, s2, e[2..]);
    assert StepAll(c, s2, e[2..]) == StepAll(c, s3, e[3..]) == StepAll(c, s4, e[4..]);
    assert StepAll(c, s4, e[4..]) == StepAll(c, Step(c, s4, e[4]), e[5..]);
  }

  // The relay's books.

  /** In every reachable state: an unpoisoned message has failed fewer times than allowed, a poisoned one
   *  exactly as often, and the attempts are the refusals that were written down. */
  lemma {:induction false} RelayBooksAddUp(c: Config, s: System, events: seq<Event>, id: Uuid)
    requires Fresh(s) && id in StepAll(c, s, events).outbox.rows
    ensures var o := StepAll(c, s, events).outbox;
            && (if o.rows[id].poisoned then o.rows[id].attempts == Cap(c) else 0 <= o.rows[id].attempts < Cap(c))
            && o.rows[id].attempts == o.rows[id].refusals - o.rows[id].unrecorded - Pending(o.relay, id)
  {
    ReachableKeeps(c, s, events);
    hide StepAll, ShopOk, RowsOk, QueueOk, ErrorsOk, OrdersOk, CountsOk, StageOk, NothingLost, UpToDate;
    assert RowTallied(c, StepAll(c, s, events).outbox.rows[id], Pending(StepAll(c, s, events).outbox.relay, id));
  }

  function SentCount(sent: seq<Envelope>, id: Uuid): nat {
    if sent == [] then 0
    else SentCount(sent[..|sent| - 1], id) + if sent[|sent| - 1].id == id then 1 else 0
  }

  ghost predicate GivenUp(o: Outbox, id: Uuid, row: Row, count: nat) {
    id in o.rows && o.rows[id] == row && row.poisoned && SentCount(o.sent, id) == count
  }

  lemma {:induction false} SentCountOfAppend(sent: seq<Envelope>, e: Envelope, id: Uuid)
    ensures SentCount(sent + [e], id) == SentCount(sent, id) + if e.id == id then 1 else 0
  {
    assert (sent + [e])[..|sent|] == sent;
  }

  lemma {:induction false} NotInHand(c: Config, o: Outbox, id: Uuid, row: Row, count: nat)
    requires BooksOk(c, o) && GivenUp(o, id, row, count)
    ensures !o.relay.Idle? ==> o.relay.now.envelope.id != id
  {
    if !o.relay.Idle? { InHand(o.rows, o.relay); }
    hide Tallied, UpToDate, SentCount;
  }

  /** A call of the relay touches only the row in hand and sends only the message in hand. */
  lemma {:induction false} CallStoreIsLocal(c: Config, o: Outbox, x: Chance, id: Uuid)
    requires id in o.rows && (!o.relay.Idle? ==> o.relay.now.envelope.id != id)
    ensures var t := CallStore(c, o, x);
            && id in t.rows && t.rows[id] == o.rows[id]
            && (t.sent == o.sent || (!o.relay.Idle? && t.sent == o.sent + [o.relay.now.envelope]))
  {
  }

  lemma {:induction false} GivenUpStays(c: Config, o: Outbox, x: Chance, id: Uuid, row: Row, count: nat)
    requires GivenUp(o, id, row, count) && (!o.relay.Idle? ==> o.relay.now.envelope.id != id)
    ensures GivenUp(CallStore(c, o, x), id, row, count)
  {
    CallStoreIsLocal(c, o, x, id);
    if !o.relay.Idle? { SentCountOfAppend(o.sent, o.relay.now.envelope, id); }
    hide SentCount, CallStore;
  }

  lemma {:induction false} QuietStepsAreLocal(o: Outbox, id: Uuid)
    requires id in o.rows && (!o.relay.Idle? ==> o.relay.now.envelope.id != id)
    ensures forall e, clock :: id in Record(o.rows, e, clock) && Record(o.rows, e, clock)[id] == o.rows[id]
    ensures id in Stopped(o).rows && Stopped(o).rows[id] == o.rows[id] && Stopped(o).sent == o.sent
  {
  }

  lemma {:induction false} PoisonedStep(c: Config, s: System, e: Event, id: Uuid, row: Row, count: nat)
    requires Invariant(c, s) && GivenUp(s.outbox, id, row, count)
    ensures GivenUp(Step(c, s, e).outbox, id, row, count)
  {
    NotInHand(c, s.outbox, id, row, count);
    OutboxOfStep(c, s, e);
    QuietStepsAreLocal(s.outbox, id);
    hide Invariant, Step, SentCount, Next, Record, Stopped;
    if e.CallRelay? { GivenUpStays(c, s.outbox, e.x, id, row, count); }
    hide CallStore;
  }

  /** A poisoned message is never sent again, and its row never changes. */
  lemma {:induction false} PoisonedIsFinal(c: Config, s: System, before: seq<Event>, after: seq<Event>, id: Uuid)
    requires Fresh(s)
    requires var u := StepAll(c, s, before); id in u.outbox.rows && u.outbox.rows[id].poisoned
    ensures var u := StepAll(c, s, before);
            var t := StepAll(c, u, after);
            && id in t.outbox.rows && t.outbox.rows[id] == u.outbox.rows[id]
            && SentCount(t.outbox.sent, id) == SentCount(u.outbox.sent, id)
  {
    ReachableKeeps(c, s, before);
    var u := StepAll(c, s, before);
    hide Invariant, Step, StepAll;
    PoisonedFrom(c, u, after, id, u.outbox.rows[id], SentCount(u.outbox.sent, id));
  }

  lemma {:induction false} PoisonedFrom(c: Config, u: System, after: seq<Event>, id: Uuid, row: Row, count: nat)
    requires Invariant(c, u) && GivenUp(u.outbox, id, row, count)
    ensures GivenUp(StepAll(c, u, after).outbox, id, row, count)
    decreases |after|
  {
    if |after| != 0 {
      PoisonedStep(c, u, after[0], id, row, count);
      StepKeeps(c, u, after[0]);
      hide Invariant, GivenUp, Step;
      PoisonedFrom(c, Step(c, u, after[0]), after[1..], id, row, count);
    }
  }

  lemma {:induction false} CallStoreOutbox(c: Config, s: System, e: Event)
    requires Invariant(c, s)
    ensures e.CallRelay? ==>
              var t := CallStore(c, s.outbox, e.x);
              && (forall id :: id in s.outbox.rows ==> id in t.rows || id in s.outbox.accepted)
              && (forall id :: id in s.outbox.accepted ==> id in t.accepted)
    ensures Stopped(s.outbox).accepted == s.outbox.accepted
    ensures forall id :: id in s.outbox.rows ==> id in Stopped(s.outbox).rows
  {
    if e.CallRelay? { CallStoreFacts(c, s.outbox, e.x); }
    StopKeeps(c, s.outbox);
    hide CallStore, Stopped, BooksOk;
  }

  lemma {:induction false} RowsLeaveByStep(c: Config, s: System, e: Event, id: Uuid)
    requires Invariant(c, s) && (id in s.outbox.rows || id in s.outbox.accepted)
    ensures id in Step(c, s, e).outbox.rows || id in Step(c, s, e).outbox.accepted
  {
    OutboxOfStep(c, s, e);
    CallStoreOutbox(c, s, e);
    hide Invariant, Step, CallStore, Next, Stopped;
  }

  /** A row disappears from the outbox table only after the publisher accepted its message. */
  lemma {:induction false} RowsLeaveOnlyWhenAccepted(c: Config, s: System, before: seq<Event>, after: seq<Event>, id: Uuid)
    requires Fresh(s) && id in StepAll(c, s, before).outbox.rows
    ensures var t := StepAll(c, StepAll(c, s, before), after); id in t.outbox.rows || id in t.outbox.accepted
  {
    ReachableKeeps(c, s, before);
    hide Invariant, Step;
    RowsLeaveFrom(c, StepAll(c, s, before), after, id);
  }

  lemma {:induction false} RowsLeaveFrom(c: Config, u: System, after: seq<Event>, id: Uuid)
    requires Invariant(c, u) && (id in u.outbox.rows || id in u.outbox.accepted)
    ensures id in StepAll(c, u, after).outbox.rows || id in StepAll(c, u, after).outbox.accepted
    decreases |after|
  {
    if |after| != 0 {
      RowsLeaveByStep(c, u, after[0], id);
      StepKeeps(c, u, after[0]);
      hide Invariant, Step;
      RowsLeaveFrom(c, Step(c, u, after[0]), after[1..], id);
    }
  }
}
