/** A checkout's way from a basket to an order, as a machine whose steps are single calls.
 *
 *  Checkout handlers, the relay and one consumer take turns in any order. Every call can succeed,
 *  fail, or fail after taking effect, and every component can stop between any two of its calls.
 */
module Pipeline {
  import opened Calls
  import opened Ids
  import opened Checkout
  import opened Envelopes
  import Cache = BasketCache

  datatype Config = Config(hash: string -> Uuid, batchSize: int, maxAttempts: int)

  type FreshId = u: Uuid | u != NIL witness 1

  /** What decides one call: how it ends, the clock, how the wire writes the message, new UUIDs. */
  datatype Chance = Chance(outcome: Outcome, clock: int, version: Header, timestamp: int,
                           orderId: FreshId, itemIds: nat -> Uuid, reason: string)

  // Basket: the baskets table, the outbox table beside it, and the checkout handlers.

  datatype Request = Request(command: CheckoutCommand, correlationId: string, occurredOn: int)

  datatype Handler = Handler(cart: Cart, announcement: Envelope)

  /** `stored` and `versions` record every basket ever written; no code reads them. */
  datatype Shop = Shop(table: map<string, Cache.Basket>, handlers: map<nat, Handler>,
                       stored: set<Cart>, versions: set<Uuid>)

  /** What a handler that was served this cart wants recorded, or nothing if it refuses. */
  function Announcement(c: Config, r: Request, cart: Cart): Option<Envelope> {
    if cart.items == [] || cart.version == NIL then None
    else NewEnvelope(EventOf(r.command, cart), CheckoutId(c.hash, r.command.userName, cart.version),
                     r.correlationId, r.occurredOn, r.command.userName)
  }

  /** A row of the outbox table. `refusals` counts what the broker refused since the row was written and
   *  `unrecorded` those of them that were never written down; no code reads either. */
  datatype Row = Row(envelope: Envelope, attempts: int, nextAttempt: int, poisoned: bool,
                     refusals: nat, unrecorded: nat)

  /** A row already there stays as it is. */
  function Record(rows: map<Uuid, Row>, e: Envelope, clock: int): map<Uuid, Row> {
    if e.id in rows then rows else rows[e.id := Row(e, 0, clock, false, 0, 0)]
  }

  // The relay.

  datatype Due = Due(envelope: Envelope, attempts: int)

  /** The call the relay makes next, for the message in hand and with the rest of its batch to follow. */
  datatype Work =
    | Idle
    | Polling(now: Due, rest: seq<Due>) | Publishing(now: Due, rest: seq<Due>) | Deleting(now: Due, rest: seq<Due>)
    | Failing(now: Due, rest: seq<Due>) | Poisoning(now: Due, rest: seq<Due>)

  datatype Outbox = Outbox(rows: map<Uuid, Row>, relay: Work, sent: seq<Envelope>, accepted: set<Uuid>)

  predicate IsReady(row: Row, clock: int) {
    !row.poisoned && row.nextAttempt <= clock
  }

  predicate Before(a: Envelope, b: Envelope) {
    a.occurredOn < b.occurredOn || (a.occurredOn == b.occurredOn && a.id < b.id)
  }

  /** The answer to the relay's query: the oldest ready rows, as many as the limit lets through. */
  predicate IsDue(rows: map<Uuid, Row>, limit: int, clock: int, batch: seq<Due>) {
    && |batch| <= limit
    && (forall i :: 0 <= i < |batch| ==>
          var id := batch[i].envelope.id;
          id in rows && IsReady(rows[id], clock) && batch[i] == Due(rows[id].envelope, rows[id].attempts))
    && (forall i, j :: 0 <= i < j < |batch| ==> Before(batch[i].envelope, batch[j].envelope))
    && (forall id :: id in rows && IsReady(rows[id], clock) && Due(rows[id].envelope, rows[id].attempts) !in batch ==>
          |batch| == limit && forall i :: 0 <= i < |batch| ==> Before(batch[i].envelope, rows[id].envelope))
  }

  function Next(batch: seq<Due>): Work {
    if batch == [] then Idle else Polling(batch[0], batch[1..])
  }

  /** The broker holds every message until it is acknowledged or discarded. */
  datatype Broker = Broker(queue: multiset<Message>, errors: multiset<Message>)

  function OnWire(e: Envelope, x: Chance): Message {
    var n := e.contract.version;
    Carried(MessageOf(e), if Encodes(x.version, n) then x.version else Signed(Native, n), x.timestamp)
  }

  function CallPublish(c: Config, o: Outbox, now: Due, rest: seq<Due>, x: Chance): Outbox {
    var id := now.envelope.id;
    var tried := if Effective(x.outcome) then o.(sent := o.sent + [now.envelope]) else o;
    if x.outcome.Succeeds? then tried.(accepted := o.accepted + {id}, relay := Deleting(now, rest))
    else if x.outcome.cancelled then tried.(relay := Idle)
    else tried.(
        rows := if id in o.rows then o.rows[id := o.rows[id].(refusals := o.rows[id].refusals + 1)] else o.rows,
        relay := if now.attempts + 1 >= c.maxAttempts then Poisoning(now, rest) else Failing(now, rest))
  }

  function MarkUnrecorded(rows: map<Uuid, Row>, id: Uuid): map<Uuid, Row> {
    if id in rows then rows[id := rows[id].(unrecorded := rows[id].unrecorded + 1)] else rows
  }

  function Fail(rows: map<Uuid, Row>, id: Uuid, nextAttempt: int): map<Uuid, Row> {
    if id !in rows then rows
    else rows[id := rows[id].(attempts := rows[id].attempts + 1, nextAttempt := nextAttempt)]
  }

  function Poison(rows: map<Uuid, Row>, id: Uuid): map<Uuid, Row> {
    if id !in rows || rows[id].poisoned then rows
    else rows[id := rows[id].(attempts := rows[id].attempts + 1, poisoned := true)]
  }

  /** The relay's next call, as far as Basket's database goes. */
  function CallStore(c: Config, o: Outbox, x: Chance): Outbox {
    var effective, goesOn := Effective(x.outcome), x.outcome.Succeeds?;
    match o.relay
    case Idle => o
    case Polling(now, rest) => o.(relay := if goesOn then Publishing(now, rest) else Idle)
    case Publishing(now, rest) => CallPublish(c, o, now, rest, x)
    case Deleting(now, rest) =>
      o.(rows := if effective then o.rows - {now.envelope.id} else o.rows,
         relay := if goesOn then Next(rest) else Idle)
    case Failing(now, rest) =>
      o.(rows := if effective then Fail(o.rows, now.envelope.id, x.clock) else MarkUnrecorded(o.rows, now.envelope.id),
         relay := if goesOn then Next(rest) else Idle)
    case Poisoning(now, rest) =>
      o.(rows := if effective then Poison(o.rows, now.envelope.id) else MarkUnrecorded(o.rows, now.envelope.id),
         relay := if goesOn then Next(rest) else Idle)
  }

  /** A relay that stops between a refusal and its recording leaves the refusal unrecorded. */
  function Stopped(o: Outbox): Outbox {
    if o.relay.Failing? || o.relay.Poisoning?
    then o.(rows := MarkUnrecorded(o.rows, o.relay.now.envelope.id), relay := Idle)
    else o.(relay := Idle)
  }

  // Ordering: the inbox and the orders it places, driven by one consumer.

  datatype Placed = Placed(messageId: Uuid, placement: Placement)

  datatype Stage =
    | Waiting
    | Discarding(message: Message) | Requeueing(message: Message) | Acking(message: Message)
    | Claiming(message: Message, envelope: Envelope) | Asking(message: Message, envelope: Envelope)
    | Placing(message: Message, envelope: Envelope) | Completing(message: Message, envelope: Envelope)
    | SettingAside(message: Message, envelope: Envelope)

  /** The inbox says of each claimed message whether it was completed. `incomplete` holds one copy of a
   *  message id for every delivery that placed an order but did not complete; no code reads it. */
  datatype Ordering = Ordering(inbox: map<Uuid, bool>, orders: seq<Placed>, incomplete: multiset<Uuid>, consumer: Stage)

  function Opened(m: Message): Stage {
    var e := EnvelopeFrom(m);
    if e.None? then Discarding(m) else if e.value.id == NIL then Requeueing(m) else Claiming(m, e.value)
  }

  predicate Acceptable(p: Payload) {
    p.Encoded? && Orderable(p.event)
  }

  /** What the handler does with a claimed message: place the order it describes, or reject it. */
  function Judged(m: Message, e: Envelope): Stage {
    if Acceptable(e.payload) then Placing(m, e) else SettingAside(m, e)
  }

  function PlacedBy(e: Envelope, x: Chance): Placed
    requires e.payload.Encoded?
  {
    Placed(e.id, PlacementOf(e.payload.event, x.orderId, seq<Uuid>(|e.payload.event.items|, x.itemIds)))
  }

  /** The consumer's next call, as far as Ordering's database and its own progress go. */
  function CallOrdering(o: Ordering, x: Chance): Ordering {
    var effective, goesOn := Effective(x.outcome), x.outcome.Succeeds?;
    match o.consumer
    case Waiting => o
    case Discarding(_) | Requeueing(_) | Acking(_) => o.(consumer := Waiting)
    case Claiming(m, e) =>
      var claimed := if effective && e.id !in o.inbox then o.(inbox := o.inbox[e.id := false]) else o;
      claimed.(consumer := if !goesOn then Requeueing(m) else if e.id in o.inbox then Asking(m, e) else Judged(m, e))
    case Asking(m, e) =>
      o.(consumer := if !goesOn || e.id !in o.inbox then Requeueing(m)
                     else if o.inbox[e.id] then Acking(m) else Judged(m, e))
    case Placing(m, e) =>
      if !effective || !e.payload.Encoded? then o.(consumer := Requeueing(m))
      else o.(orders := o.orders + [PlacedBy(e, x)],
              consumer := if goesOn then Completing(m, e) else Requeueing(m),
              incomplete := if goesOn then o.incomplete else o.incomplete + multiset{e.id})
    case Completing(m, e) =>
      o.(inbox := if effective && e.id in o.inbox then o.inbox[e.id := true] else o.inbox,
         incomplete := if effective then o.incomplete else o.incomplete + multiset{e.id},
         consumer := if goesOn then Acking(m) else Requeueing(m))
    case SettingAside(m, e) => o.(consumer := if goesOn then Acking(m) else Requeueing(m))
  }

  /** The consumer's next call, as far as the broker goes. */
  function CallBroker(b: Broker, stage: Stage, x: Chance): Broker {
    if !Effective(x.outcome) then b
    else if stage.Discarding? || stage.Acking? then b.(queue := b.queue - multiset{stage.message})
    else if stage.SettingAside? then b.(errors := b.errors + multiset{Rejected(stage.message, x.reason)})
    else b
  }

  /** A consumer that stops after placing an order leaves its delivery incomplete. */
  function Crashed(o: Ordering): Ordering {
    o.(consumer := Waiting,
       incomplete := if o.consumer.Completing? then o.incomplete + multiset{o.consumer.envelope.id} else o.incomplete)
  }

  // The whole.

  /** `committed` holds the ids of the checkouts that took effect; no code reads it. */
  datatype System = System(shop: Shop, outbox: Outbox, broker: Broker, ordering: Ordering, committed: set<Uuid>)

  datatype Event =
    | StoreBasket(cart: Cart) | RemoveBasket(user: string)
    | BeginCheckout(handler: nat, request: Request, cart: Cart) | CommitCheckout(handler: nat, x: Chance)
    | AbandonCheckout(handler: nat)
    | ReadDue(clock: int, batch: seq<Due>) | CallRelay(x: Chance) | StopRelay
    | Deliver(message: Message) | CallConsumer(x: Chance) | StopConsumer

  /** Removes the basket and records its announcement in one transaction, or changes nothing. */
  function CheckoutTables(table: map<string, Cache.Basket>, rows: map<Uuid, Row>, user: string, e: Envelope, x: Chance)
    : (map<string, Cache.Basket>, map<Uuid, Row>)
  {
    if user !in table || !Effective(x.outcome) then (table, rows) else (table - {user}, Record(rows, e, x.clock))
  }

  function Commit(s: System, handler: nat, x: Chance): System
    requires handler in s.shop.handlers
  {
    var h := s.shop.handlers[handler];
    var (table, rows) := CheckoutTables(s.shop.table, s.outbox.rows, h.cart.userName, h.announcement, x);
    var effective := h.cart.userName in s.shop.table && Effective(x.outcome);
    s.(shop := s.shop.(handlers := s.shop.handlers - {handler}, table := table),
       outbox := s.outbox.(rows := rows),
       committed := if effective then s.committed + {h.announcement.id} else s.committed)
  }

  function Relay(c: Config, s: System, x: Chance): System {
    var work := s.outbox.relay;
    s.(outbox := CallStore(c, s.outbox, x),
       broker := if work.Publishing? && Effective(x.outcome)
                 then s.broker.(queue := s.broker.queue + multiset{OnWire(work.now.envelope, x)}) else s.broker)
  }

  function Consume(s: System, x: Chance): System {
    s.(ordering := CallOrdering(s.ordering, x), broker := CallBroker(s.broker, s.ordering.consumer, x))
  }

  /** One step. An event that cannot happen in this state changes nothing: a version is used once, a
   *  handler is only ever served a basket its user really stored, and the consumer handles one delivery
   *  at a time. */
  function Step(c: Config, s: System, e: Event): System {
    match e
    case StoreBasket(cart) =>
      if cart.version == NIL || cart.version in s.shop.versions then s
      else s.(shop := s.shop.(table := s.shop.table[cart.userName := Cache.Basket(cart.items, cart.version)],
                              stored := s.shop.stored + {cart}, versions := s.shop.versions + {cart.version}))
    case RemoveBasket(user) => s.(shop := s.shop.(table := s.shop.table - {user}))
    case BeginCheckout(handler, request, cart) =>
      var announcement := Announcement(c, request, cart);
      if cart !in s.shop.stored || cart.userName != request.command.userName || announcement.None? then s
      else s.(shop := s.shop.(handlers := s.shop.handlers[handler := Handler(cart, announcement.value)]))
    case CommitCheckout(handler, x) => if handler in s.shop.handlers then Commit(s, handler, x) else s
    case AbandonCheckout(handler) => s.(shop := s.shop.(handlers := s.shop.handlers - {handler}))
    case ReadDue(clock, batch) =>
      if s.outbox.relay.Idle? && IsDue(s.outbox.rows, c.batchSize, clock, batch)
      then s.(outbox := s.outbox.(relay := Next(batch))) else s
    case CallRelay(x) => Relay(c, s, x)
    case StopRelay => s.(outbox := Stopped(s.outbox))
    case Deliver(m) =>
      if s.ordering.consumer.Waiting? && m in s.broker.queue
      then s.(ordering := s.ordering.(consumer := Opened(m))) else s
    case CallConsumer(x) => Consume(s, x)
    case StopConsumer => s.(ordering := Crashed(s.ordering))
  }

  function StepAll(c: Config, s: System, events: seq<Event>): System
    decreases |events|
  {
    if |events| == 0 then s else StepAll(c, Step(c, s, events[0]), events[1..])
  }

  // What a process finds when it makes a call.

  /** The steps others take before the call, and what decides the call. */
  datatype Fate = Fate(meanwhile: seq<Event>, x: Chance)

  /** A chance about which only the ending matters. */
  function Ending(o: Outcome): Chance {
    Chance(o, 0, Signed(Native, 1), 0, 1, _ => NIL, "")
  }

  /** When the fates are used up every call fails without effect. */
  function Upcoming(fates: seq<Fate>): Chance {
    if |fates| == 0 then Ending(Fails(false, false)) else fates[0].x
  }

  function Left(fates: seq<Fate>): seq<Fate> {
    if |fates| == 0 then fates else fates[1..]
  }
}
