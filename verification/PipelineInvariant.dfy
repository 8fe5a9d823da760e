/** What every step of the checkout pipeline keeps. */
module PipelineInvariant {
  import opened Calls
  import opened Ids
  import opened Checkout
  import opened Envelopes
  import opened Pipeline
  import Cache = BasketCache

  // Basket.

  /** The envelope is what some checkout of this very cart announces. */
  ghost predicate Announces(c: Config, cart: Cart, e: Envelope) {
    exists r: Request :: r.command.userName == cart.userName && Announcement(c, r, cart) == Some(e)
  }

  ghost predicate Genuine(c: Config, stored: set<Cart>, e: Envelope) {
    exists cart :: cart in stored && Announces(c, cart, e)
  }

  ghost predicate ShopOk(c: Config, shop: Shop) {
    && (forall u :: u in shop.table ==> Cache.CartOf(u, shop.table[u]) in shop.stored)
    && (forall a :: a in shop.stored ==> a.version != NIL && a.version in shop.versions)
    && (forall a, b :: a in shop.stored && b in shop.stored && a.version == b.version ==> a == b)
    && (forall h :: h in shop.handlers ==>
          shop.handlers[h].cart in shop.stored
          && Announces(c, shop.handlers[h].cart, shop.handlers[h].announcement))
  }

  // The outbox table.

  ghost predicate RowsOk(c: Config, stored: set<Cart>, rows: map<Uuid, Row>) {
    forall id :: id in rows ==> rows[id].envelope.id == id && Genuine(c, stored, rows[id].envelope)
  }

  /** Giving up takes at least one failure, whatever the configured number. */
  function Cap(c: Config): int {
    if c.maxAttempts < 1 then 1 else c.maxAttempts
  }

  function Batch(w: Work): seq<Due> {
    if w.Idle? then [] else [w.now] + w.rest
  }

  /** The refusal the relay has seen and not yet written down. */
  function Pending(w: Work, id: Uuid): nat {
    if (w.Failing? || w.Poisoning?) && w.now.envelope.id == id then 1 else 0
  }

  /** The row's counters add up, and it is given up on exactly when it has failed as often as allowed. */
  predicate RowTallied(c: Config, row: Row, pending: nat) {
    && 0 <= row.attempts
    && (if row.poisoned then row.attempts == Cap(c) else row.attempts < Cap(c))
    && row.refusals == row.attempts + row.unrecorded + pending
  }

  ghost predicate Tallied(c: Config, o: Outbox) {
    forall id :: id in o.rows ==> RowTallied(c, o.rows[id], Pending(o.relay, id))
  }

  /** What the relay still has in hand is unchanged in the table, and each message is there once. */
  ghost predicate UpToDate(rows: map<Uuid, Row>, batch: seq<Due>) {
    && (forall i :: 0 <= i < |batch| ==>
          var id := batch[i].envelope.id;
          id in rows && !rows[id].poisoned && batch[i] == Due(rows[id].envelope, rows[id].attempts))
    && (forall i, j :: 0 <= i < j < |batch| ==> batch[i].envelope.id != batch[j].envelope.id)
  }

  ghost predicate BooksOk(c: Config, o: Outbox) {
    && (forall id :: id in o.rows ==> o.rows[id].envelope.id == id)
    && Tallied(c, o)
    && UpToDate(o.rows, Batch(o.relay))
    && (o.relay.Failing? ==> o.relay.now.attempts + 1 < c.maxAttempts)
    && (o.relay.Poisoning? ==> o.relay.now.attempts + 1 >= c.maxAttempts)
    && (o.relay.Deleting? ==> o.relay.now.envelope.id in o.accepted)
  }

  // The queue and the orders.

  predicate Carries(m: Message, id: Uuid) {
    EnvelopeFrom(m).Some? && EnvelopeFrom(m).value.id == id
  }

  ghost predicate QueueOk(c: Config, stored: set<Cart>, queue: multiset<Message>) {
    forall m :: m in queue ==> EnvelopeFrom(m).Some? && Genuine(c, stored, EnvelopeFrom(m).value)
  }

  /** Only messages no order can be made of are set aside. */
  ghost predicate ErrorsOk(c: Config, stored: set<Cart>, errors: multiset<Message>) {
    forall m :: m in errors ==>
      EnvelopeFrom(m).Some? && Genuine(c, stored, EnvelopeFrom(m).value) && !Acceptable(EnvelopeFrom(m).value.payload)
  }

  /** The order is the one a checkout of this very cart stands for. */
  ghost predicate OrderOf(c: Config, cart: Cart, p: Placed) {
    exists e, x :: Announces(c, cart, e) && e.payload.Encoded? && p == PlacedBy(e, x)
  }

  ghost predicate OrdersOk(c: Config, stored: set<Cart>, orders: seq<Placed>) {
    forall i :: 0 <= i < |orders| ==> exists cart :: cart in stored && OrderOf(c, cart, orders[i])
  }

  /** How many orders one message was placed as. */
  function Count(orders: seq<Placed>, id: Uuid): nat {
    if orders == [] then 0
    else Count(orders[..|orders| - 1], id) + if orders[|orders| - 1].messageId == id then 1 else 0
  }

  predicate Completed(o: Ordering, id: Uuid) {
    id in o.inbox && o.inbox[id]
  }

  ghost predicate CountsOk(o: Ordering) {
    forall id :: Count(o.orders, id) == (if Completed(o, id) then 1 else 0) + o.incomplete[id]
                                        + (if o.consumer.Completing? && o.consumer.envelope.id == id then 1 else 0)
  }

  ghost predicate IsKept(b: Broker, orders: seq<Placed>, id: Uuid) {
    || (exists m :: m in b.errors && Carries(m, id))
    || (exists i :: 0 <= i < |orders| && orders[i].messageId == id)
  }

  /** The message is in the queue, set aside, or an order. */
  ghost predicate HasLanded(b: Broker, orders: seq<Placed>, id: Uuid) {
    IsKept(b, orders, id) || exists m :: m in b.queue && Carries(m, id)
  }

  ghost predicate StageOk(b: Broker, o: Ordering) {
    var stage := o.consumer;
    && !stage.Discarding?
    && (!stage.Waiting? ==> stage.message in b.queue)
    && (stage.Acking? ==>
          EnvelopeFrom(stage.message).Some? && IsKept(b, o.orders, EnvelopeFrom(stage.message).value.id))
    && (stage.Claiming? || stage.Asking? || stage.Placing? || stage.Completing? || stage.SettingAside? ==>
          EnvelopeFrom(stage.message) == Some(stage.envelope))
    && (stage.Placing? || stage.Completing? ==>
          stage.envelope.id in o.inbox && !o.inbox[stage.envelope.id] && Acceptable(stage.envelope.payload))
    && (stage.SettingAside? ==> !Acceptable(stage.envelope.payload))
  }

  /** A committed checkout leaves the outbox table only once the broker accepted it, and what the broker
   *  accepted has landed. */
  ghost predicate NothingLost(s: System) {
    && (forall id :: id in s.committed ==> id in s.outbox.rows || id in s.outbox.accepted)
    && (forall id :: id in s.outbox.accepted ==> HasLanded(s.broker, s.ordering.orders, id))
  }

  ghost predicate Invariant(c: Config, s: System) {
    && ShopOk(c, s.shop)
    && RowsOk(c, s.shop.stored, s.outbox.rows)
    && BooksOk(c, s.outbox)
    && QueueOk(c, s.shop.stored, s.broker.queue)
    && ErrorsOk(c, s.shop.stored, s.broker.errors)
    && OrdersOk(c, s.shop.stored, s.ordering.orders)
    && CountsOk(s.ordering)
    && StageOk(s.broker, s.ordering)
    && NothingLost(s)
  }

  // Genuine envelopes.

  lemma {:induction false} AnnouncedFacts(c: Config, cart: Cart, e: Envelope)
    requires Announces(c, cart, e)
    ensures e.id == CheckoutId(c.hash, cart.userName, cart.version) && e.id != NIL
    ensures e.contract == CHECKOUT_SUBMITTED && e.payload.Encoded?
    ensures e.payload.event.userName == cart.userName && |e.payload.event.items| == |cart.items| > 0
  {
    hide CheckoutName, CartTotal;
  }

  lemma {:induction false} AnnouncedAtAnyTime(c: Config, cart: Cart, e: Envelope, time: int)
    requires Announces(c, cart, e)
    ensures Announces(c, cart, e.(occurredOn := time))
  {
    hide EventOf, CheckoutId;
    var r: Request :| r.command.userName == cart.userName && Announcement(c, r, cart) == Some(e);
    assert Announcement(c, r.(occurredOn := time), cart) == Some(e.(occurredOn := time));
  }

  /** A genuine envelope is readable when it arrives, however the wire writes it, and stays genuine. */
  lemma {:induction false} GenuineOnWire(c: Config, stored: set<Cart>, e: Envelope, x: Chance)
    requires Genuine(c, stored, e)
    ensures var m := OnWire(e, x);
            EnvelopeFrom(m) == Some(e.(occurredOn := x.timestamp)) && Genuine(c, stored, EnvelopeFrom(m).value)
  {
    var cart :| cart in stored && Announces(c, cart, e);
    AnnouncedFacts(c, cart, e);
    AnnouncedAtAnyTime(c, cart, e, x.timestamp);
    hide Announces, EnvelopeFrom, Encodes, Carried, MessageOf;
    var version := if Encodes(x.version, e.contract.version) then x.version else Signed(Native, e.contract.version);
    assert Encodes(version, e.contract.version) by { NativeEncodes(e.contract.version); }
    EnvelopeSurvives(e, version, x.timestamp);
  }

  lemma {:induction false} NativeEncodes(n: int)
    ensures Encodes(Signed(Native, n), n)
  {
  }

  lemma {:induction false} MoreStored(c: Config, s: System, stored: set<Cart>)
    requires RowsOk(c, s.shop.stored, s.outbox.rows) && QueueOk(c, s.shop.stored, s.broker.queue)
    requires ErrorsOk(c, s.shop.stored, s.broker.errors)
    requires OrdersOk(c, s.shop.stored, s.ordering.orders) && s.shop.stored <= stored
    ensures RowsOk(c, stored, s.outbox.rows) && QueueOk(c, stored, s.broker.queue)
    ensures ErrorsOk(c, stored, s.broker.errors) && OrdersOk(c, stored, s.ordering.orders)
  {
    hide Announces, OrderOf, EnvelopeFrom, Acceptable;
    forall i | 0 <= i < |s.ordering.orders| ensures exists cart :: cart in stored && OrderOf(c, cart, s.ordering.orders[i]) {
      var cart :| cart in s.shop.stored && OrderOf(c, cart, s.ordering.orders[i]);
      assert cart in stored;
    }
  }
}
