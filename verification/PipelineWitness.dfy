/** Runs that show the pipeline's results are about something: a stored basket does become an order, and
 *  one delivery cut short does make it two.
 */
module PipelineWitness {
  import opened Calls
  import opened Ids
  import opened Checkout
  import opened Envelopes
  import opened Pipeline
  import opened PipelineInvariant
  import opened PipelineSteps
  import opened PipelineRuns
  import Cache = BasketCache

  const GOOD := Ending(Succeeds)

  /** A new basket and a request for it that meet every rule on the way to an order. */
  predicate CanBecomeAnOrder(c: Config, s: System, r: Request, cart: Cart) {
    && cart.version != NIL && cart.version !in s.shop.versions
    && cart.userName == r.command.userName != ""
    && CheckoutId(c.hash, cart.userName, cart.version) != NIL
    && CheckoutRules(r.command, cart)
    && c.batchSize >= 1
  }

  /** The basket is stored, read and checked out. */
  function CheckingOut(r: Request, cart: Cart): seq<Event> {
    [StoreBasket(cart), BeginCheckout(0, r, cart), CommitCheckout(0, GOOD)]
  }

  /** The relay reads the message, is not told to stop, and publishes it. */
  function Relaying(e: Envelope): seq<Event> {
    [ReadDue(0, [Due(e, 0)]), CallRelay(GOOD), CallRelay(GOOD)]
  }

  /** The consumer is delivered the message, claims it and places the order. */
  function Consuming(m: Message): seq<Event> {
    [Deliver(m), CallConsumer(GOOD), CallConsumer(GOOD)]
  }

  lemma {:induction false} ThreeSteps(c: Config, s: System, e: seq<Event>)
    requires |e| == 3
    ensures StepAll(c, s, e) == Step(c, Step(c, Step(c, s, e[0]), e[1]), e[2])
  {
    hide Step;
    forall i | 0 <= i < 3 ensures e[i..][0] == e[i] && e[i..][1..] == e[i + 1..] {}
    var s1 := Step(c, s, e[0]);
    var s2 := Step(c, s1, e[1]);
    assert StepAll(c, s, e) == StepAll(c, s1, e[1..]) == StepAll(c, s2, e[2..]) == StepAll(c, Step(c, s2, e[2]), e[3..]);
  }

  lemma {:induction false} RulesAnnounce(c: Config, s: System, r: Request, cart: Cart)
    requires CanBecomeAnOrder(c, s, r, cart)
    ensures Announcement(c, r, cart).Some?
    ensures Announcement(c, r, cart).value.id == CheckoutId(c.hash, cart.userName, cart.version) != NIL
    ensures Acceptable(Announcement(c, r, cart).value.payload)
  {
    assert Announcement(c, r, cart).Some? by { hide CheckoutId; }
    hide CheckoutRules, CheckoutId;
    RulesDecide(c, r, cart);
  }

  lemma {:induction false} CheckedOutIsRecorded(c: Config, s: System, r: Request, cart: Cart)
    requires Fresh(s) && CanBecomeAnOrder(c, s, r, cart) && Announcement(c, r, cart).Some?
    ensures var t := StepAll(c, s, CheckingOut(r, cart));
            var e := Announcement(c, r, cart).value;
            && t.outbox == Outbox(map[e.id := Row(e, 0, 0, false, 0, 0)], Idle, [], {})
            && t.broker == s.broker && t.ordering == s.ordering
  {
    hide Announcement, CheckoutRules, CheckoutId;
    ThreeSteps(c, s, CheckingOut(r, cart));
    hide StepAll;
  }

  lemma {:induction false} RecordedIsPublished(c: Config, s: System, e: Envelope)
    requires s.outbox == Outbox(map[e.id := Row(e, 0, 0, false, 0, 0)], Idle, [], {}) && c.batchSize >= 1
    ensures var t := StepAll(c, s, Relaying(e));
            t.broker == s.broker.(queue := s.broker.queue + multiset{OnWire(e, GOOD)}) && t.ordering == s.ordering
  {
    hide OnWire;
    var batch := [Due(e, 0)];
    assert IsDue(s.outbox.rows, c.batchSize, 0, batch) by { assert Due(e, 0) in batch; }
    hide IsDue;
    assert Next(batch) == Polling(Due(e, 0), []);
    ThreeSteps(c, s, Relaying(e));
    hide StepAll;
    assert Step(c, s, ReadDue(0, batch)) == s.(outbox := s.outbox.(relay := Polling(Due(e, 0), [])));
  }

  lemma {:induction false} ClaimedThenPlaced(b: Broker, o: Ordering, m: Message, e: Envelope)
    requires o == Ordering(map[], [], multiset{}, Claiming(m, e)) && e.payload.Encoded? && Acceptable(e.payload)
    ensures var p := CallOrdering(o, GOOD);
            p.consumer.Placing? && CallBroker(b, o.consumer, GOOD) == b && CallBroker(b, p.consumer, GOOD) == b
    ensures var q := CallOrdering(CallOrdering(o, GOOD), GOOD);
            q.orders == [PlacedBy(e, GOOD)] && q.consumer == Completing(m, e)
  {
    hide PlacedBy, Orderable;
  }

  lemma {:induction false} PublishedIsPlaced(c: Config, s: System, m: Message, e: Envelope)
    requires m in s.broker.queue && EnvelopeFrom(m) == Some(e) && e.id != NIL && Acceptable(e.payload)
    requires s.ordering == Ordering(map[], [], multiset{}, Waiting)
    ensures var t := StepAll(c, s, Consuming(m));
            t.ordering.orders == [PlacedBy(e, GOOD)] && t.ordering.consumer == Completing(m, e)
  {
    AcceptableDecodes(e.payload);
    assert Opened(m) == Claiming(m, e);
    var o := s.ordering.(consumer := Claiming(m, e));
    ClaimedThenPlaced(s.broker, o, m, e);
    DeliverStep(c, s, m);
    ConsumeStep(c, s.(ordering := o), GOOD);
    ConsumeStep(c, s.(ordering := CallOrdering(o, GOOD)), GOOD);
    hide EnvelopeFrom, Acceptable, PlacedBy, CallOrdering, CallBroker, Opened, StepAll, Step;
    ThreeSteps(c, s, Consuming(m));
  }

  lemma {:induction false} DeliverStep(c: Config, s: System, m: Message)
    requires m in s.broker.queue && s.ordering.consumer.Waiting?
    ensures Step(c, s, Deliver(m)) == s.(ordering := s.ordering.(consumer := Opened(m)))
  {
    hide Opened;
  }

  lemma {:induction false} ConsumeStep(c: Config, s: System, x: Chance)
    ensures Step(c, s, CallConsumer(x)) == Consume(s, x)
  {
    hide Consume;
  }

  lemma {:induction false} AcceptableDecodes(p: Payload)
    requires Acceptable(p)
    ensures p.Encoded?
  {
  }

  function FirstOrder(c: Config, r: Request, cart: Cart): seq<Event>
    requires Announcement(c, r, cart).Some?
  {
    var e := Announcement(c, r, cart).value;
    CheckingOut(r, cart) + (Relaying(e) + Consuming(OnWire(e, GOOD)))
  }

  /** From any fresh system, every new basket that meets the rules can become an order with its goods; the
   *  consumer then still has to complete the message. */
  lemma {:induction false} BasketBecomesAnOrder(c: Config, s: System, r: Request, cart: Cart)
    requires Fresh(s) && CanBecomeAnOrder(c, s, r, cart)
    ensures Announcement(c, r, cart).Some?
    ensures var o := StepAll(c, s, FirstOrder(c, r, cart)).ordering;
            && o.consumer.Completing?
            && o.consumer.envelope.id == CheckoutId(c.hash, cart.userName, cart.version)
            && |o.orders| == 1 && o.orders[0].messageId == o.consumer.envelope.id
            && OrderOf(c, cart, o.orders[0]) && SameGoods(o.orders[0].placement.order, cart)
  {
    RulesAnnounce(c, s, r, cart);
    CheckedOutIsRecorded(c, s, r, cart);
    var e := Announcement(c, r, cart).value;
    assert Announces(c, cart, e);
    assert Genuine(c, {cart}, e);
    GenuineOnWire(c, {cart}, e, GOOD);
    AnnouncedAtAnyTime(c, cart, e, 0);
    var m, f := OnWire(e, GOOD), e.(occurredOn := 0);
    assert s.broker.queue == multiset{} && s.ordering == Ordering(map[], [], multiset{}, Waiting);
    hide Fresh, StepAll, Announcement, CheckingOut, Relaying, Consuming, OnWire, EnvelopeFrom, Announces, Genuine, Acceptable,
         CanBecomeAnOrder, CheckoutId;
    var s1 := StepAll(c, s, CheckingOut(r, cart));
    assert c.batchSize >= 1 by { RoomForOne(c, s, r, cart); }
    RecordedIsPublished(c, s1, e);
    var s2 := StepAll(c, s1, Relaying(e));
    assert m in s2.broker.queue;
    PublishedIsPlaced(c, s2, m, f);
    StepAllOfConcat(c, s1, Relaying(e), Consuming(m));
    StepAllOfConcat(c, s, CheckingOut(r, cart), Relaying(e) + Consuming(m));
    AcceptableDecodes(f.payload);
    PlacedId(f, GOOD);
    assert OrderOf(c, cart, PlacedBy(f, GOOD));
    OrderHasGoods(c, cart, PlacedBy(f, GOOD));
  }

  lemma {:induction false} RoomForOne(c: Config, s: System, r: Request, cart: Cart)
    requires CanBecomeAnOrder(c, s, r, cart)
    ensures c.batchSize >= 1
  {
  }

  /** The same basket twice: the run that placed the first order, cut short there and redelivered. */
  lemma {:induction false} BasketBecomesTwoOrders(c: Config, s: System, r: Request, cart: Cart)
    requires Fresh(s) && CanBecomeAnOrder(c, s, r, cart)
    ensures Announcement(c, r, cart).Some?
    ensures var u := StepAll(c, s, FirstOrder(c, r, cart));
            && u.ordering.consumer.Completing?
            && var again := [StopConsumer, Deliver(u.ordering.consumer.message), CallConsumer(GOOD), CallConsumer(GOOD),
                             CallConsumer(GOOD)];
               Count(StepAll(c, s, FirstOrder(c, r, cart) + again).ordering.orders,
                     CheckoutId(c.hash, cart.userName, cart.version)) == 2
  {
    BasketBecomesAnOrder(c, s, r, cart);
    hide Fresh, CanBecomeAnOrder, FirstOrder, StepAll, CheckoutId, OrderOf, SameGoods;
    var events := FirstOrder(c, r, cart);
    var u := StepAll(c, s, events);
    var id := CheckoutId(c.hash, cart.userName, cart.version);
    assert Count(u.ordering.orders, id) == 1 by { assert u.ordering.orders[..0] == []; }
    hide Count;
    IncompleteDeliveryRepeatsTheOrder(c, s, events);
    StepAllOfConcat(c, s, events, [StopConsumer, Deliver(u.ordering.consumer.message), CallConsumer(GOOD),
                                   CallConsumer(GOOD), CallConsumer(GOOD)]);
  }
}
