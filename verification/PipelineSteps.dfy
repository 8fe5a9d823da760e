/** Each step of the checkout pipeline keeps the invariant, one kind of step at a time. */
module PipelineSteps {
  import opened Calls
  import opened Ids
  import opened Checkout
  import opened Envelopes
  import opened Pipeline
  import opened PipelineInvariant
  import Cache = BasketCache

  // Baskets and handlers.

  lemma {:induction false} StoredShop(c: Config, shop: Shop, cart: Cart)
    requires ShopOk(c, shop) && cart.version != NIL && cart.version !in shop.versions
    ensures ShopOk(c, shop.(table := shop.table[cart.userName := Cache.Basket(cart.items, cart.version)],
                            stored := shop.stored + {cart}, versions := shop.versions + {cart.version}))
  {
    hide Announces;
  }

  lemma {:induction false} StoreKeeps(c: Config, s: System, cart: Cart)
    requires Invariant(c, s) && cart.version != NIL && cart.version !in s.shop.versions
    ensures Invariant(c, s.(shop := s.shop.(
                              table := s.shop.table[cart.userName := Cache.Basket(cart.items, cart.version)],
                              stored := s.shop.stored + {cart}, versions := s.shop.versions + {cart.version})))
  {
    hide ShopOk, RowsOk, BooksOk, QueueOk, ErrorsOk, OrdersOk, CountsOk, StageOk, HasLanded;
    StoredShop(c, s.shop, cart);
    MoreStored(c, s, s.shop.stored + {cart});
  }

  /** Rows may disappear from the baskets table, and handlers come and go. */
  lemma {:induction false} ShopKeeps(c: Config, s: System, shop: Shop)
    requires Invariant(c, s) && ShopOk(c, shop) && shop.stored == s.shop.stored
    ensures Invariant(c, s.(shop := shop))
  {
    hide ShopOk, RowsOk, BooksOk, QueueOk, ErrorsOk, OrdersOk, CountsOk, StageOk, HasLanded;
  }

  lemma {:induction false} BegunShop(c: Config, shop: Shop, handler: nat, r: Request, cart: Cart)
    requires ShopOk(c, shop) && cart in shop.stored && cart.userName == r.command.userName
    requires Announcement(c, r, cart).Some?
    ensures ShopOk(c, shop.(handlers := shop.handlers[handler := Handler(cart, Announcement(c, r, cart).value)]))
  {
    hide Announcement;
    assert Announces(c, cart, Announcement(c, r, cart).value);
    hide Announces;
  }

  lemma {:induction false} ShrunkShop(c: Config, shop: Shop, handler: nat, user: string)
    requires ShopOk(c, shop)
    ensures ShopOk(c, shop.(handlers := shop.handlers - {handler}))
    ensures ShopOk(c, shop.(table := shop.table - {user}))
    ensures ShopOk(c, shop.(handlers := shop.handlers - {handler}, table := shop.table - {user}))
  {
    hide Announces;
  }

  lemma {:induction false} RecordKeeps(c: Config, stored: set<Cart>, o: Outbox, e: Envelope, clock: int)
    requires RowsOk(c, stored, o.rows) && BooksOk(c, o) && Genuine(c, stored, e)
    ensures var rows := Record(o.rows, e, clock);
            && RowsOk(c, stored, rows) && BooksOk(c, o.(rows := rows))
            && (forall id :: id in rows <==> id in o.rows || id == e.id)
  {
    hide Genuine;
    assert e.id !in o.rows ==> Pending(o.relay, e.id) == 0 by {
      if !o.relay.Idle? { assert Batch(o.relay)[0] == o.relay.now; }
    }
    var rows := Record(o.rows, e, clock);
    assert UpToDate(rows, Batch(o.relay)) by { hide Tallied; }
    assert Tallied(c, o.(rows := rows)) by {
      hide UpToDate, Batch, Pending;
      assert e.id !in o.rows ==> RowTallied(c, rows[e.id], 0);
    }
    hide Tallied, UpToDate, Pending;
  }

  lemma {:induction false} CommitKeeps(c: Config, s: System, handler: nat, x: Chance)
    requires Invariant(c, s) && handler in s.shop.handlers
    ensures Invariant(c, Commit(s, handler, x))
  {
    var h := s.shop.handlers[handler];
    assert Genuine(c, s.shop.stored, h.announcement);
    hide ShopOk, RowsOk, BooksOk, QueueOk, ErrorsOk, OrdersOk, CountsOk, StageOk, Genuine, Announces, HasLanded, Record;
    ShrunkShop(c, s.shop, handler, h.cart.userName);
    RecordKeeps(c, s.shop.stored, s.outbox, h.announcement, x.clock);
  }

  // The relay.

  predicate OldestFirst(a: Envelope, b: Envelope) {
    a.occurredOn <= b.occurredOn && (a.occurredOn == b.occurredOn ==> a.id < b.id)
  }

  /** What a batch promises, row by row: each is unpoisoned and its next attempt is due, oldest first and by id
   *  among those of one moment; and a due row is left out only when the batch is full of older ones. */
  ghost predicate HoldsOldestDue(rows: map<Uuid, Row>, limit: int, now: int, batch: seq<Due>) {
    && |batch| <= limit
    && (forall i :: 0 <= i < |batch| ==>
          var id := batch[i].envelope.id;
          && id in rows && !rows[id].poisoned && rows[id].nextAttempt <= now
          && batch[i] == Due(rows[id].envelope, rows[id].attempts))
    && (forall i, j :: 0 <= i < j < |batch| ==> OldestFirst(batch[i].envelope, batch[j].envelope))
    && (forall id :: id in rows && !rows[id].poisoned && rows[id].nextAttempt <= now
                     && Due(rows[id].envelope, rows[id].attempts) !in batch ==>
          |batch| == limit && forall i :: 0 <= i < |batch| ==> OldestFirst(batch[i].envelope, rows[id].envelope))
  }

  lemma {:induction false} DueIsOldestDue(rows: map<Uuid, Row>, limit: int, now: int, batch: seq<Due>)
    ensures IsDue(rows, limit, now, batch) <==> HoldsOldestDue(rows, limit, now, batch)
  {
    assert forall a: Envelope, b: Envelope :: Before(a, b) <==> OldestFirst(a, b);
    hide Before, OldestFirst;
  }

  lemma {:induction false} DueIsUpToDate(rows: map<Uuid, Row>, limit: int, clock: int, batch: seq<Due>)
    requires IsDue(rows, limit, clock, batch) && forall id :: id in rows ==> rows[id].envelope.id == id
    ensures UpToDate(rows, batch)
  {
    forall i, j | 0 <= i < j < |batch| ensures batch[i].envelope.id != batch[j].envelope.id {
      assert Before(batch[i].envelope, batch[j].envelope);
    }
  }

  lemma {:induction false} ReadKeeps(c: Config, o: Outbox, clock: int, batch: seq<Due>)
    requires BooksOk(c, o) && o.relay.Idle? && IsDue(o.rows, c.batchSize, clock, batch)
    ensures BooksOk(c, o.(relay := Next(batch)))
  {
    hide IsDue, UpToDate;
    BatchOfNext(batch);
    DueIsUpToDate(o.rows, c.batchSize, clock, batch);
    hide Batch;
  }

  /** The message in hand, and the batch without it. */
  lemma {:induction false} InHand(rows: map<Uuid, Row>, w: Work)
    requires !w.Idle? && UpToDate(rows, Batch(w))
    ensures w.now.envelope.id in rows && !rows[w.now.envelope.id].poisoned
    ensures w.now == Due(rows[w.now.envelope.id].envelope, rows[w.now.envelope.id].attempts)
    ensures UpToDate(rows, w.rest)
    ensures forall i :: 0 <= i < |w.rest| ==> w.rest[i].envelope.id != w.now.envelope.id
  {
    var batch := Batch(w);
    assert batch[0] == w.now && batch[1..] == w.rest;
    forall i | 0 <= i < |w.rest| ensures w.rest[i] == batch[i + 1] {}
  }

  /** Changing the row in hand does not touch the rest of the batch. */
  lemma {:induction false} RestStays(before: map<Uuid, Row>, after: map<Uuid, Row>, id: Uuid, rest: seq<Due>)
    requires UpToDate(before, rest)
    requires forall i :: 0 <= i < |rest| ==> rest[i].envelope.id != id
    requires forall other :: other in before && other != id ==> other in after && after[other] == before[other]
    ensures UpToDate(after, rest)
  {
  }

  lemma {:induction false} BatchOfNext(rest: seq<Due>)
    ensures Batch(Next(rest)) == rest
    ensures Next(rest).Idle? || Next(rest).Polling?
  {
  }

  lemma {:induction false} PublishTallies(c: Config, o: Outbox, now: Due, rest: seq<Due>, x: Chance)
    requires Tallied(c, o) && o.relay == Publishing(now, rest)
    ensures Tallied(c, CallPublish(c, o, now, rest, x))
  {
    var t := CallPublish(c, o, now, rest, x);
    forall id | id in t.rows ensures RowTallied(c, t.rows[id], Pending(t.relay, id)) {
      assert RowTallied(c, o.rows[id], 0);
      if id != now.envelope.id {
        hide RowTallied;
        assert t.rows[id] == o.rows[id] && Pending(t.relay, id) == 0;
      }
    }
  }

  lemma {:induction false} PublishKeeps(c: Config, o: Outbox, now: Due, rest: seq<Due>, x: Chance)
    requires BooksOk(c, o) && o.relay == Publishing(now, rest)
    ensures BooksOk(c, CallPublish(c, o, now, rest, x))
  {
    var t := CallPublish(c, o, now, rest, x);
    PublishTallies(c, o, now, rest, x);
    InHand(o.rows, o.relay);
    hide Tallied;
    assert UpToDate(t.rows, rest) by {
      hide UpToDate;
      RestStays(o.rows, t.rows, now.envelope.id, rest);
    }
    assert UpToDate(t.rows, Batch(t.relay));
    hide UpToDate, Batch;
  }

  lemma {:induction false} AfterwardsKeeps(c: Config, o: Outbox, rows: map<Uuid, Row>, goesOn: bool)
    requires BooksOk(c, o) && !o.relay.Idle?
    requires forall id :: id in rows ==> id in o.rows
    requires var now := o.relay.now.envelope.id;
             && (forall id :: id in o.rows && id != now ==> id in rows && rows[id] == o.rows[id])
             && (now in rows ==> rows[now].envelope == o.rows[now].envelope && RowTallied(c, rows[now], 0))
    ensures BooksOk(c, o.(rows := rows, relay := if goesOn then Next(o.relay.rest) else Idle))
  {
    var rest := o.relay.rest;
    var t := o.(rows := rows, relay := if goesOn then Next(rest) else Idle);
    InHand(o.rows, o.relay);
    BatchOfNext(rest);
    hide Next;
    assert Tallied(c, t) by { hide UpToDate, Batch, RowTallied; }
    assert UpToDate(t.rows, Batch(t.relay)) by {
      hide Tallied;
      RestStays(o.rows, rows, o.relay.now.envelope.id, rest);
    }
    hide UpToDate, Batch, Tallied;
  }

  lemma {:induction false} PollKeeps(c: Config, o: Outbox, x: Chance)
    requires BooksOk(c, o) && o.relay.Polling?
    ensures BooksOk(c, CallStore(c, o, x))
  {
    var t := CallStore(c, o, x);
    assert t.relay.Publishing? ==> Batch(t.relay) == Batch(o.relay);
    hide UpToDate;
  }

  lemma {:induction false} WriteKeeps(c: Config, o: Outbox, x: Chance)
    requires BooksOk(c, o) && (o.relay.Deleting? || o.relay.Failing? || o.relay.Poisoning?)
    ensures BooksOk(c, CallStore(c, o, x))
  {
    InHand(o.rows, o.relay);
    hide UpToDate, Batch, Next;
    AfterwardsKeeps(c, o, CallStore(c, o, x).rows, x.outcome.Succeeds?);
    hide BooksOk, Tallied;
  }

  lemma {:induction false} CallStoreKeeps(c: Config, o: Outbox, x: Chance)
    requires BooksOk(c, o)
    ensures BooksOk(c, CallStore(c, o, x))
  {
    hide BooksOk, CallPublish;
    match o.relay
    case Idle =>
    case Polling(now, rest) => PollKeeps(c, o, x);
    case Publishing(now, rest) => PublishKeeps(c, o, now, rest, x);
    case _ => WriteKeeps(c, o, x);
  }

  lemma {:induction false} StopKeeps(c: Config, o: Outbox)
    requires BooksOk(c, o)
    ensures BooksOk(c, Stopped(o)) && Stopped(o).accepted == o.accepted
    ensures forall id :: id in Stopped(o).rows <==> id in o.rows
    ensures forall id :: id in o.rows ==> Stopped(o).rows[id].envelope == o.rows[id].envelope
  {
    if !o.relay.Idle? { InHand(o.rows, o.relay); }
    hide UpToDate;
    assert Batch(Stopped(o).relay) == [];
  }

  /** What a call of the relay leaves in the table: rows keep their envelope, and only a message that was
   *  accepted before can disappear. */
  lemma {:induction false} CallStoreFacts(c: Config, o: Outbox, x: Chance)
    requires BooksOk(c, o)
    ensures var t := CallStore(c, o, x);
            && (forall id :: id in t.rows ==> id in o.rows && t.rows[id].envelope == o.rows[id].envelope)
            && (forall id :: id in o.rows ==> id in t.rows || id in o.accepted)
            && (forall id :: id in t.accepted <==>
                  id in o.accepted || (o.relay.Publishing? && x.outcome.Succeeds? && id == o.relay.now.envelope.id))
            && o.sent <= t.sent
  {
    hide Tallied, UpToDate, Batch, Next;
    match o.relay
    case Publishing(now, rest) =>
    case Deleting(now, rest) =>
    case _ =>
  }

  lemma {:induction false} QueueGrows(c: Config, s: System, m: Message, id: Uuid)
    requires QueueOk(c, s.shop.stored, s.broker.queue) && StageOk(s.broker, s.ordering)
    requires Carries(m, id) && Genuine(c, s.shop.stored, EnvelopeFrom(m).value)
    ensures var b := s.broker.(queue := s.broker.queue + multiset{m});
            && QueueOk(c, s.shop.stored, b.queue) && StageOk(b, s.ordering)
            && HasLanded(b, s.ordering.orders, id)
            && forall other :: HasLanded(s.broker, s.ordering.orders, other) ==> HasLanded(b, s.ordering.orders, other)
  {
    hide EnvelopeFrom, Genuine, Acceptable;
    var b := s.broker.(queue := s.broker.queue + multiset{m});
    assert m in b.queue;
    assert forall other :: IsKept(s.broker, s.ordering.orders, other) ==> IsKept(b, s.ordering.orders, other);
    hide IsKept;
    assert forall n :: n in s.broker.queue ==> n in b.queue;
  }

  lemma {:induction false} ReadDueKeeps(c: Config, s: System, clock: int, batch: seq<Due>)
    requires Invariant(c, s) && s.outbox.relay.Idle? && IsDue(s.outbox.rows, c.batchSize, clock, batch)
    ensures Invariant(c, s.(outbox := s.outbox.(relay := Next(batch))))
  {
    ReadKeeps(c, s.outbox, clock, batch);
    hide BooksOk, ShopOk, RowsOk, QueueOk, ErrorsOk, OrdersOk, CountsOk, StageOk, HasLanded, IsDue, Next;
  }

  lemma {:induction false} RelayBroker(c: Config, s: System, x: Chance)
    requires Invariant(c, s)
    ensures var b := Relay(c, s, x).broker;
            && b.errors == s.broker.errors
            && QueueOk(c, s.shop.stored, b.queue) && StageOk(b, s.ordering)
            && (forall id :: HasLanded(s.broker, s.ordering.orders, id) ==> HasLanded(b, s.ordering.orders, id))
            && (s.outbox.relay.Publishing? && Effective(x.outcome) ==>
                  HasLanded(b, s.ordering.orders, s.outbox.relay.now.envelope.id))
  {
    var o := s.outbox;
    if o.relay.Publishing? && Effective(x.outcome) {
      var e := o.relay.now.envelope;
      InHand(o.rows, o.relay);
      GenuineOnWire(c, s.shop.stored, e, x);
      hide Genuine, BooksOk, OnWire, HasLanded, QueueOk, ErrorsOk, StageOk, CountsOk, OrdersOk, ShopOk, CallStore;
      QueueGrows(c, s, OnWire(e, x), e.id);
    }
  }

  lemma {:induction false} RelayKeeps(c: Config, s: System, x: Chance)
    requires Invariant(c, s)
    ensures Invariant(c, Relay(c, s, x))
  {
    CallStoreKeeps(c, s.outbox, x);
    CallStoreFacts(c, s.outbox, x);
    RelayBroker(c, s, x);
    hide Genuine, BooksOk, OnWire, HasLanded, QueueOk, ErrorsOk, StageOk, CountsOk, OrdersOk, ShopOk, CallStore, Effective;
  }

  lemma {:induction false} StopRelayKeeps(c: Config, s: System)
    requires Invariant(c, s)
    ensures Invariant(c, s.(outbox := Stopped(s.outbox)))
  {
    StopKeeps(c, s.outbox);
    hide Genuine, BooksOk, HasLanded, QueueOk, ErrorsOk, StageOk, CountsOk, OrdersOk, ShopOk, Stopped;
  }

  // The consumer.

  lemma {:induction false} CountOfAppend(orders: seq<Placed>, p: Placed, id: Uuid)
    ensures Count(orders + [p], id) == Count(orders, id) + if p.messageId == id then 1 else 0
  {
    assert (orders + [p])[..|orders|] == orders;
  }

  lemma {:induction false} CountedOrderExists(orders: seq<Placed>, id: Uuid)
    ensures Count(orders, id) > 0 <==> exists i :: 0 <= i < |orders| && orders[i].messageId == id
  {
    if orders != [] {
      var init := orders[..|orders| - 1];
      CountedOrderExists(init, id);
      if i :| 0 <= i < |init| && init[i].messageId == id { assert orders[i].messageId == id; }
      assert forall i :: 0 <= i < |init| ==> init[i] == orders[i];
    }
  }

  lemma {:induction false} CountsKeep(o: Ordering, x: Chance)
    requires CountsOk(o)
    requires o.consumer.Placing? ==> Acceptable(o.consumer.envelope.payload)
    requires o.consumer.Placing? || o.consumer.Completing? ==>
               o.consumer.envelope.id in o.inbox && !o.inbox[o.consumer.envelope.id]
    ensures CountsOk(CallOrdering(o, x))
  {
    hide Orderable, PlacementOf, Count, PlacedBy;
    var t := CallOrdering(o, x);
    if o.consumer.Placing? && Effective(x.outcome) {
      PlacedId(o.consumer.envelope, x);
      forall id ensures Count(t.orders, id) == Count(o.orders, id) + if o.consumer.envelope.id == id then 1 else 0 {
        CountOfAppend(o.orders, PlacedBy(o.consumer.envelope, x), id);
      }
    }
  }

  lemma {:induction false} PlacedId(e: Envelope, x: Chance)
    requires e.payload.Encoded?
    ensures PlacedBy(e, x).messageId == e.id
  {
  }

  lemma {:induction false} OrdersKeep(c: Config, stored: set<Cart>, o: Ordering, x: Chance)
    requires OrdersOk(c, stored, o.orders)
    requires o.consumer.Placing? ==>
               Acceptable(o.consumer.envelope.payload) && Genuine(c, stored, o.consumer.envelope)
    ensures OrdersOk(c, stored, CallOrdering(o, x).orders)
    ensures o.orders <= CallOrdering(o, x).orders
  {
    hide Orderable, PlacementOf, Announces, PlacedBy;
    var t := CallOrdering(o, x);
    if o.consumer.Placing? && Effective(x.outcome) {
      var cart :| cart in stored && Announces(c, cart, o.consumer.envelope);
      assert OrderOf(c, cart, PlacedBy(o.consumer.envelope, x));
      hide OrderOf;
      forall i | 0 <= i < |t.orders| ensures exists cart :: cart in stored && OrderOf(c, cart, t.orders[i]) {
        if i < |o.orders| { assert t.orders[i] == o.orders[i]; }
      }
    }
  }

  /** What has landed stays landed: a message leaves the queue only when it was set aside or is an order. */
  lemma {:induction false} LandedStays(b: Broker, o: Ordering, x: Chance, id: Uuid)
    requires StageOk(b, o) && HasLanded(b, o.orders, id)
    ensures HasLanded(CallBroker(b, o.consumer, x), CallOrdering(o, x).orders, id)
  {
    var after := CallBroker(b, o.consumer, x);
    if IsKept(b, o.orders, id) {
      KeptStays(b, o, x, id);
    } else {
      hide IsKept, Carries, CallOrdering, Rejected;
      var m :| m in b.queue && Carries(m, id);
      CarriesOwnId(m, id);
      assert m in after.queue;
    }
  }

  lemma {:induction false} CarriesOwnId(m: Message, id: Uuid)
    ensures Carries(m, id) <==> EnvelopeFrom(m).Some? && EnvelopeFrom(m).value.id == id
  {
  }

  lemma {:induction false} KeptStays(b: Broker, o: Ordering, x: Chance, id: Uuid)
    requires IsKept(b, o.orders, id)
    ensures IsKept(CallBroker(b, o.consumer, x), CallOrdering(o, x).orders, id)
  {
    hide Carries, Rejected, Judged, PlacedBy;
    var after, orders := CallBroker(b, o.consumer, x), CallOrdering(o, x).orders;
    assert o.orders <= orders;
    assert forall m :: m in b.errors ==> m in after.errors;
    if i :| 0 <= i < |o.orders| && o.orders[i].messageId == id { assert orders[i] == o.orders[i]; }
  }

  /** Only a message that is set aside or already an order is about to be acknowledged. */
  lemma {:induction false} AckedIsKept(b: Broker, o: Ordering, x: Chance)
    requires StageOk(b, o) && CountsOk(o) && CallOrdering(o, x).consumer.Acking?
    ensures var m := CallOrdering(o, x).consumer.message;
            && m == o.consumer.message && EnvelopeFrom(m).Some?
            && IsKept(CallBroker(b, o.consumer, x), CallOrdering(o, x).orders, EnvelopeFrom(m).value.id)
  {
    hide EnvelopeFrom, Rejected, Count, PlacedBy, Orderable;
    var m, e := o.consumer.message, o.consumer.envelope;
    var after := CallBroker(b, o.consumer, x);
    if o.consumer.SettingAside? {
      RejectedCopyStaysReadable(m, x.reason);
      assert Rejected(m, x.reason) in after.errors && Carries(Rejected(m, x.reason), e.id);
    } else {
      assert Count(o.orders, e.id) > 0;
      CountedOrderExists(o.orders, e.id);
    }
  }

  predicate HasEnvelope(stage: Stage) {
    stage.Claiming? || stage.Asking? || stage.Placing? || stage.Completing? || stage.SettingAside?
  }

  /** How a delivery moves on: always with the same message, and to placing only when claimed afresh. */
  lemma {:induction false} NextStage(o: Ordering, x: Chance)
    requires o.consumer.Placing? || o.consumer.Completing? ==>
               o.consumer.envelope.id in o.inbox && !o.inbox[o.consumer.envelope.id]
               && Acceptable(o.consumer.envelope.payload)
    ensures var t := CallOrdering(o, x);
            && !t.consumer.Discarding?
            && (!t.consumer.Waiting? ==> HasEnvelope(o.consumer) && t.consumer.message == o.consumer.message)
            && (HasEnvelope(t.consumer) ==> t.consumer.envelope == o.consumer.envelope)
            && (t.consumer.Placing? || t.consumer.Completing? ==>
                  t.consumer.envelope.id in t.inbox && !t.inbox[t.consumer.envelope.id]
                  && Acceptable(t.consumer.envelope.payload))
            && (t.consumer.SettingAside? ==> !Acceptable(t.consumer.envelope.payload))
  {
    hide Orderable, PlacedBy;
  }

  lemma {:induction false} StageKeeps(b: Broker, o: Ordering, x: Chance)
    requires StageOk(b, o) && CountsOk(o)
    ensures StageOk(CallBroker(b, o.consumer, x), CallOrdering(o, x))
  {
    if CallOrdering(o, x).consumer.Acking? { AckedIsKept(b, o, x); }
    NextStage(o, x);
    hide EnvelopeFrom, Rejected, IsKept, CountsOk, CallOrdering, Acceptable;
  }

  lemma {:induction false} ErrorsKeep(c: Config, stored: set<Cart>, b: Broker, o: Ordering, x: Chance)
    requires QueueOk(c, stored, b.queue) && ErrorsOk(c, stored, b.errors) && StageOk(b, o)
    ensures ErrorsOk(c, stored, CallBroker(b, o.consumer, x).errors)
  {
    if o.consumer.SettingAside? { RejectedCopyStaysReadable(o.consumer.message, x.reason); }
    hide EnvelopeFrom, Rejected, Genuine, Acceptable, IsKept;
  }

  lemma {:induction false} QueueShrinks(c: Config, stored: set<Cart>, b: Broker, stage: Stage, x: Chance)
    requires QueueOk(c, stored, b.queue)
    ensures QueueOk(c, stored, CallBroker(b, stage, x).queue)
  {
    hide EnvelopeFrom, Genuine, Rejected;
  }

  lemma {:induction false} ConsumeKeeps(c: Config, s: System, x: Chance)
    requires Invariant(c, s)
    ensures Invariant(c, Consume(s, x))
  {
    var stored, b, o := s.shop.stored, s.broker, s.ordering;
    ConsumerIsFine(c, s, x);
    ErrorsKeep(c, stored, b, o, x);
    QueueShrinks(c, stored, b, o.consumer, x);
    StageKeeps(b, o, x);
    hide ShopOk, RowsOk, BooksOk, CallOrdering, CallBroker, HasLanded, StageOk, CountsOk, OrdersOk, ErrorsOk, QueueOk;
    CountsKeep(o, x);
    OrdersKeep(c, stored, o, x);
    forall id | id in s.outbox.accepted
      ensures HasLanded(CallBroker(b, o.consumer, x), CallOrdering(o, x).orders, id)
    {
      LandedStays(b, o, x, id);
    }
  }

  /** What the consumer has in hand is genuine, claimed and, when it places an order, acceptable. */
  lemma {:induction false} ConsumerIsFine(c: Config, s: System, x: Chance)
    requires Invariant(c, s)
    ensures var stage := s.ordering.consumer;
            && (stage.Placing? ==> Acceptable(stage.envelope.payload) && Genuine(c, s.shop.stored, stage.envelope))
            && (stage.Placing? || stage.Completing? ==>
                  stage.envelope.id in s.ordering.inbox && !s.ordering.inbox[stage.envelope.id])
  {
    hide ShopOk, RowsOk, BooksOk, Genuine, EnvelopeFrom, Acceptable, IsKept, ErrorsOk, HasLanded, CountsOk, OrdersOk;
  }

  lemma {:induction false} DeliverKeeps(c: Config, s: System, m: Message)
    requires Invariant(c, s) && s.ordering.consumer.Waiting? && m in s.broker.queue
    ensures Invariant(c, s.(ordering := s.ordering.(consumer := Opened(m))))
  {
    hide ShopOk, RowsOk, BooksOk, ErrorsOk, Genuine, EnvelopeFrom, Acceptable, OrdersOk, HasLanded, Count;
  }

  lemma {:induction false} CrashKeeps(c: Config, s: System)
    requires Invariant(c, s)
    ensures Invariant(c, s.(ordering := Crashed(s.ordering)))
  {
    hide ShopOk, RowsOk, BooksOk, ErrorsOk, Genuine, EnvelopeFrom, Acceptable, OrdersOk, HasLanded, Count;
  }

  /** Every step keeps the invariant. */
  lemma {:induction false} StepKeeps(c: Config, s: System, e: Event)
    requires Invariant(c, s)
    ensures Invariant(c, Step(c, s, e))
  {
    hide ShopOk, RowsOk, BooksOk, QueueOk, ErrorsOk, OrdersOk, CountsOk, StageOk, NothingLost, IsDue, Announcement;
    if s != Step(c, s, e) {
      match e
      case StoreBasket(cart) => StoreKeeps(c, s, cart);
      case RemoveBasket(user) => ShrunkShop(c, s.shop, 0, user); ShopKeeps(c, s, Step(c, s, e).shop);
      case BeginCheckout(handler, r, cart) => BegunShop(c, s.shop, handler, r, cart); ShopKeeps(c, s, Step(c, s, e).shop);
      case AbandonCheckout(handler) => ShrunkShop(c, s.shop, handler, ""); ShopKeeps(c, s, Step(c, s, e).shop);
      case CommitCheckout(handler, x) => CommitKeeps(c, s, handler, x);
      case ReadDue(clock, batch) => ReadDueKeeps(c, s, clock, batch);
      case CallRelay(x) => RelayKeeps(c, s, x);
      case StopRelay => StopRelayKeeps(c, s);
      case Deliver(m) => DeliverKeeps(c, s, m);
      case CallConsumer(x) => ConsumeKeeps(c, s, x);
      case StopConsumer => CrashKeeps(c, s);
    }
  }

  lemma {:induction false} RunKeeps(c: Config, s: System, events: seq<Event>)
    requires Invariant(c, s)
    ensures Invariant(c, StepAll(c, s, events))
    decreases |events|
  {
    if |events| != 0 {
      StepKeeps(c, s, events[0]);
      hide Invariant, Step;
      RunKeeps(c, Step(c, s, events[0]), events[1..]);
    }
  }

  /** What any step can do to the outbox. */
  lemma {:induction false} OutboxOfStep(c: Config, s: System, e: Event)
    ensures var o, t := s.outbox, Step(c, s, e).outbox;
            || t == o
            || (exists envelope, clock :: t == o.(rows := Record(o.rows, envelope, clock)))
            || (e.ReadDue? && o.relay.Idle? && exists batch :: t == o.(relay := Next(batch)))
            || (e.CallRelay? && t == CallStore(c, o, e.x))
            || (e.StopRelay? && t == Stopped(o))
  {
    hide IsDue, Announcement, CallStore, Stopped, CallBroker, CallOrdering, OnWire, Record, Next, Crashed;
  }
}
