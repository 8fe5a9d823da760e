/** Ordering's consumer as it runs: read the envelope, claim it in the inbox, place the order, complete
 *  the claim, and tell the broker what became of the message.
 *
 *  Each method is tied to the pipeline's own steps, with other components' steps before every call.
 */
module CheckoutConsumer {
  import opened Calls
  import opened Ids
  import opened Checkout
  import opened Envelopes
  import opened Pipeline
  import PipelineRuns

  predicate OfConsumer(e: Event) {
    e.Deliver? || e.CallConsumer? || e.StopConsumer?
  }

  function Others(events: seq<Event>): seq<Event> {
    if |events| == 0 then []
    else if OfConsumer(events[0]) then Others(events[1..])
    else [events[0]] + Others(events[1..])
  }

  function WithConsumer(s: System, stage: Stage): System {
    s.(ordering := s.ordering.(consumer := stage))
  }

  /** The others' steps, which neither read nor move the consumer. */
  function Meanwhile(c: Config, s: System, fates: seq<Fate>): (t: System)
    ensures t.ordering.consumer == s.ordering.consumer
  {
    if |fates| == 0 then s
    else WithConsumer(StepAll(c, WithConsumer(s, Waiting), Others(fates[0].meanwhile)), s.ordering.consumer)
  }

  function CallsLeft(stage: Stage): nat {
    match stage
    case Waiting => 0
    case Discarding(_) | Requeueing(_) | Acking(_) => 1
    case Completing(_, _) | SettingAside(_, _) => 2
    case Placing(_, _) => 3
    case Asking(_, _) => 4
    case Claiming(_, _) => 5
  }

  lemma {:induction false} CallsRunOut(s: System, x: Chance)
    requires !s.ordering.consumer.Waiting?
    ensures CallsLeft(Consume(s, x).ordering.consumer) < CallsLeft(s.ordering.consumer)
  {
    hide Orderable, PlacedBy, CallBroker;
  }

  /** The consumer from where it stands until the broker knows what became of the message. */
  function Run(c: Config, s: System, fates: seq<Fate>): (System, seq<Fate>)
    decreases CallsLeft(s.ordering.consumer)
  {
    if s.ordering.consumer.Waiting? then (s, fates)
    else
      var t := Meanwhile(c, s, fates);
      CallsRunOut(t, Upcoming(fates));
      Run(c, Consume(t, Upcoming(fates)), Left(fates))
  }

  datatype Claim = Inserted | Duplicate | Unanswered

  /** Ordering's database and the broker, as the one consumer finds them. */
  class Backends {
    const config: Config
    var shop: Shop
    var outbox: Outbox
    var broker: Broker
    var inbox: map<Uuid, bool>
    var orders: seq<Placed>
    var incomplete: multiset<Uuid>
    var committed: set<Uuid>
    var fates: seq<Fate>
    /** Where the consumer stands. */
    ghost var stage: Stage

    ghost function Now(): System
      reads this
    {
      System(shop, outbox, broker, Ordering(inbox, orders, incomplete, stage), committed)
    }

    /** What the next call leaves. */
    ghost function Next(): System
      reads this
    {
      Consume(Meanwhile(config, Now(), fates), Upcoming(fates))
    }

    /** Others take their steps until the next call is decided. */
    method Wait() returns (x: Chance)
      modifies this
      ensures Now() == Meanwhile(config, old(Now()), old(fates)) && stage == old(stage)
      ensures x == Upcoming(old(fates)) && fates == Left(old(fates))
    {
      hide StepAll, Others;
      if |fates| == 0 {
        return Ending(Fails(false, false));
      }
      var s := StepAll(config, System(shop, outbox, broker, Ordering(inbox, orders, incomplete, Waiting), committed),
                       Others(fates[0].meanwhile));
      x := fates[0].x;
      shop, outbox, broker, committed := s.shop, s.outbox, s.broker, s.committed;
      inbox, orders, incomplete := s.ordering.inbox, s.ordering.orders, s.ordering.incomplete;
      fates := fates[1..];
    }

    // The inbox table.

    /** Inserts a claim, which fails on a key that is already there. */
    method Insert(id: Uuid) returns (r: Claim)
      requires stage.Claiming? && id == stage.envelope.id
      modifies this
      ensures Now() == old(Next()) && fates == Left(old(fates))
      ensures r == if !Upcoming(old(fates)).outcome.Succeeds? then Unanswered else if stage.Asking? then Duplicate else Inserted
      ensures !r.Unanswered? ==> stage == if r.Duplicate? then Asking(old(stage).message, old(stage).envelope)
                                          else Judged(old(stage).message, old(stage).envelope)
      ensures r.Unanswered? ==> stage == Requeueing(old(stage).message)
    {
      hide Meanwhile, Orderable;
      var x := Wait();
      r := if !x.outcome.Succeeds? then Unanswered else if id in inbox then Duplicate else Inserted;
      if Effective(x.outcome) && id !in inbox {
        inbox := inbox[id := false];
      }
      stage := if r.Unanswered? then Requeueing(stage.message)
               else if r.Duplicate? then Asking(stage.message, stage.envelope) else Judged(stage.message, stage.envelope);
    }

    /** Reads whether a claim was completed. */
    method IsProcessed(id: Uuid) returns (r: Option<bool>)
      requires stage.Asking? && id == stage.envelope.id
      modifies this
      ensures Now() == old(Next()) && fates == Left(old(fates))
      ensures stage == if r.None? then Requeueing(old(stage).message)
                       else if r.value then Acking(old(stage).message) else Judged(old(stage).message, old(stage).envelope)
    {
      hide Meanwhile, Orderable;
      var x := Wait();
      r := if x.outcome.Succeeds? && id in inbox then Some(inbox[id]) else None;
      stage := if r.None? then Requeueing(stage.message)
               else if r.value then Acking(stage.message) else Judged(stage.message, stage.envelope);
    }

    method MarkProcessed(id: Uuid) returns (ok: bool)
      requires stage.Completing? && id == stage.envelope.id
      modifies this
      ensures Now() == old(Next()) && fates == Left(old(fates))
      ensures stage == if ok then Acking(old(stage).message) else Requeueing(old(stage).message)
    {
      hide Meanwhile;
      var x := Wait();
      if Effective(x.outcome) {
        inbox := if id in inbox then inbox[id := true] else inbox;
      } else {
        incomplete := incomplete + multiset{id};
      }
      ok := x.outcome.Succeeds?;
      stage := if ok then Acking(stage.message) else Requeueing(stage.message);
    }

    // The order tables.

    /** The UUIDs the next order and its lines get. */
    method NewUuids(n: nat) returns (orderId: FreshId, itemIds: seq<Uuid>)
      ensures orderId == Upcoming(fates).orderId && itemIds == seq<Uuid>(n, Upcoming(fates).itemIds)
    {
      var x := Upcoming(fates);
      orderId, itemIds := x.orderId, seq<Uuid>(n, x.itemIds);
    }

    /** Places an order with everything it refers to in one transaction. */
    method Place(id: Uuid, placement: Placement) returns (ok: bool)
      requires stage.Placing? && stage.envelope.payload.Encoded?
      requires Placed(id, placement) == PlacedBy(stage.envelope, Upcoming(fates))
      modifies this
      ensures Now() == old(Next()) && fates == Left(old(fates))
      ensures stage == if ok then Completing(old(stage).message, old(stage).envelope) else Requeueing(old(stage).message)
    {
      hide Meanwhile, PlacementOf;
      var x := Wait();
      if Effective(x.outcome) {
        orders := orders + [Placed(id, placement)];
        if !x.outcome.Succeeds? {
          incomplete := incomplete + multiset{id};
        }
      }
      ok := x.outcome.Succeeds?;
      stage := if ok then Completing(stage.message, stage.envelope) else Requeueing(stage.message);
    }

    // The broker.

    /** Copies a message to the error queue and waits for the broker to confirm it. */
    method PublishRejected(m: Message) returns (ok: bool)
      requires stage.SettingAside? && m == stage.message
      modifies this
      ensures Now() == old(Next()) && fates == Left(old(fates))
      ensures stage == if ok then Acking(m) else Requeueing(m)
    {
      hide Meanwhile, Rejected;
      var x := Wait();
      if Effective(x.outcome) {
        broker := Broker(broker.queue, broker.errors + multiset{Rejected(m, x.reason)});
      }
      ok := x.outcome.Succeeds?;
      stage := if ok then Acking(m) else Requeueing(m);
    }

    /** Lets the broker forget the message, if it hears of it. */
    method Ack(m: Message)
      requires stage.Acking? && m == stage.message
      modifies this
      ensures Now() == old(Next()) && fates == Left(old(fates)) && stage.Waiting?
    {
      hide Meanwhile;
      var x := Wait();
      if Effective(x.outcome) {
        broker := Broker(broker.queue - multiset{m}, broker.errors);
      }
      stage := Waiting;
    }

    /** Gives the message back, or has the broker drop it. */
    method Nack(m: Message, requeue: bool)
      requires stage == if requeue then Requeueing(m) else Discarding(m)
      modifies this
      ensures Now() == old(Next()) && fates == Left(old(fates)) && stage.Waiting?
    {
      hide Meanwhile;
      var x := Wait();
      if Effective(x.outcome) && !requeue {
        broker := Broker(broker.queue - multiset{m}, broker.errors);
      }
      stage := Waiting;
    }

    ghost method Open(m: Message)
      modifies this`stage
      ensures stage == Opened(m)
    {
      stage := Opened(m);
    }
  }

  datatype Result = Handled | RejectedMessage | NotHandled

  lemma {:induction false} RunUnfolds(c: Config, s: System, fates: seq<Fate>)
    requires !s.ordering.consumer.Waiting?
    ensures Run(c, s, fates) == Run(c, Consume(Meanwhile(c, s, fates), Upcoming(fates)), Left(fates))
  {
  }

  class InboxStore {
    const db: Backends

    constructor (db: Backends)
      ensures this.db == db
    {
      this.db := db;
    }

    /** Claims a message: granted when it is new or was claimed and never completed. */
    method Begin(id: Uuid) returns (claimed: Option<bool>)
      requires db.stage.Claiming? && id == db.stage.envelope.id
      modifies db
      ensures Run(db.config, db.Now(), db.fates) == old(Run(db.config, db.Now(), db.fates))
      ensures db.stage == if claimed.None? then Requeueing(old(db.stage).message)
                          else if claimed.value then Judged(old(db.stage).message, old(db.stage).envelope)
                          else Acking(old(db.stage).message)
    {
      hide Run, Meanwhile, Judged, Consume;
      RunUnfolds(db.config, db.Now(), db.fates);
      var r := db.Insert(id);
      if r.Inserted? {
        return Some(true);
      }
      if r.Unanswered? {
        return None;
      }
      RunUnfolds(db.config, db.Now(), db.fates);
      var processed := db.IsProcessed(id);
      claimed := if processed.None? then None else Some(!processed.value);
    }

    method Complete(id: Uuid) returns (ok: bool)
      requires db.stage.Completing? && id == db.stage.envelope.id
      modifies db
      ensures Run(db.config, db.Now(), db.fates) == old(Run(db.config, db.Now(), db.fates))
      ensures db.stage == if ok then Acking(old(db.stage).message) else Requeueing(old(db.stage).message)
    {
      hide Run, Meanwhile, Consume;
      RunUnfolds(db.config, db.Now(), db.fates);
      ok := db.MarkProcessed(id);
    }
  }

  class Consumer {
    const db: Backends
    const inbox: InboxStore

    constructor (db: Backends, inbox: InboxStore)
      requires inbox.db == db
      ensures this.db == db && this.inbox == inbox
    {
      this.db, this.inbox := db, inbox;
    }

    ghost predicate Valid() {
      inbox.db == db
    }

    /** Makes an order of a checkout message, or rejects a message no order can be made of. */
    method PlaceOrder(e: Envelope) returns (r: Result)
      requires Valid() && !db.stage.Waiting? && db.stage == Judged(db.stage.message, e)
      modifies db
      ensures Run(db.config, db.Now(), db.fates) == old(Run(db.config, db.Now(), db.fates))
      ensures r.RejectedMessage? <==> !Acceptable(e.payload)
      ensures db.stage == if r.Handled? then Completing(old(db.stage).message, e)
                          else if r.RejectedMessage? then SettingAside(old(db.stage).message, e)
                          else Requeueing(old(db.stage).message)
    {
      hide Run, Meanwhile, Consume, Orderable, PlacementOf;
      if !e.payload.Encoded? {
        return RejectedMessage;
      }
      var orderId, itemIds := db.NewUuids(|e.payload.event.items|);
      var order, customer, products := OrderFrom(e.payload.event, orderId, itemIds);
      if order == null {
        return RejectedMessage;
      }
      RunUnfolds(db.config, db.Now(), db.fates);
      var ok := db.Place(e.id, Placement(order.Data(), customer, products));
      r := if ok then Handled else NotHandled;
    }

    /** Does the work of a message once: claim, work, complete. */
    method Idempotent(e: Envelope) returns (r: Result)
      requires Valid() && !db.stage.Waiting? && db.stage == Opened(db.stage.message) && EnvelopeFrom(db.stage.message) == Some(e)
      modifies db
      ensures Run(db.config, db.Now(), db.fates) == old(Run(db.config, db.Now(), db.fates))
      ensures db.stage == match r
                          case Handled => Acking(old(db.stage).message)
                          case RejectedMessage => SettingAside(old(db.stage).message, e)
                          case NotHandled => Requeueing(old(db.stage).message)
    {
      hide Run, Meanwhile, EnvelopeFrom, Acceptable;
      if e.id == NIL {
        return NotHandled;
      }
      var claimed := inbox.Begin(e.id);
      if claimed.None? {
        return NotHandled;
      }
      if !claimed.value {
        return Handled;
      }
      r := PlaceOrder(e);
      if !r.Handled? {
        return;
      }
      var ok := inbox.Complete(e.id);
      r := if ok then Handled else NotHandled;
    }

    /** Runs one delivery and tells the broker what became of it. */
    method Handle(m: Message)
      requires Valid() && db.stage.Waiting?
      modifies db
      ensures (db.Now(), db.fates) == Run(db.config, old(WithConsumer(db.Now(), Opened(m))), old(db.fates))
    {
      hide Run, Meanwhile, EnvelopeFrom, Consume;
      db.Open(m);
      ghost var all := Run(db.config, db.Now(), db.fates);
      var e := EnvelopeFrom(m);
      if e.None? {
        RunUnfolds(db.config, db.Now(), db.fates);
        db.Nack(m, false);
        RunEnds(db.config, db.Now(), db.fates);
        return;
      }
      var r := Idempotent(e.value);
      if r.RejectedMessage? {
        SetAside(m);
        return;
      }
      RunUnfolds(db.config, db.Now(), db.fates);
      if r.NotHandled? {
        db.Nack(m, true);
      } else {
        db.Ack(m);
      }
      RunEnds(db.config, db.Now(), db.fates);
    }

    /** Moves a rejected message to the error queue: the copy is confirmed before the original is
     *  acknowledged. */
    method SetAside(m: Message)
      requires Valid() && db.stage.SettingAside? && m == db.stage.message
      modifies db
      ensures (db.Now(), db.fates) == old(Run(db.config, db.Now(), db.fates))
    {
      hide Run, Meanwhile, Consume;
      RunUnfolds(db.config, db.Now(), db.fates);
      var ok := db.PublishRejected(m);
      RunUnfolds(db.config, db.Now(), db.fates);
      if ok {
        db.Ack(m);
      } else {
        db.Nack(m, true);
      }
      RunEnds(db.config, db.Now(), db.fates);
    }
  }

  lemma {:induction false} RunEnds(c: Config, s: System, fates: seq<Fate>)
    requires s.ordering.consumer.Waiting?
    ensures Run(c, s, fates) == (s, fates)
  {
  }

  // A delivery is a run of the pipeline.

  lemma {:induction false} OthersIgnoreConsumer(c: Config, s: System, e: Event, stage: Stage)
    requires !OfConsumer(e)
    ensures Step(c, WithConsumer(s, stage), e) == WithConsumer(Step(c, s, e), stage)
  {
    hide Announcement, Record, CallStore, Stopped, IsDue, OnWire;
  }

  lemma {:induction false} AllOthersIgnoreConsumer(c: Config, s: System, events: seq<Event>, stage: Stage)
    ensures StepAll(c, WithConsumer(s, stage), Others(events)) == WithConsumer(StepAll(c, s, Others(events)), stage)
    decreases |events|
  {
    if |events| != 0 {
      if OfConsumer(events[0]) {
        AllOthersIgnoreConsumer(c, s, events[1..], stage);
      } else {
        assert Others(events)[1..] == Others(events[1..]);
        OthersIgnoreConsumer(c, s, events[0], stage);
        hide Step;
        AllOthersIgnoreConsumer(c, Step(c, s, events[0]), events[1..], stage);
      }
    }
  }

  lemma {:induction false} MeanwhileIsARun(c: Config, s: System, fates: seq<Fate>)
    ensures Meanwhile(c, s, fates) == StepAll(c, s, if |fates| == 0 then [] else Others(fates[0].meanwhile))
  {
    if |fates| != 0 {
      AllOthersIgnoreConsumer(c, s, fates[0].meanwhile, Waiting);
      AllOthersIgnoreConsumer(c, s, fates[0].meanwhile, s.ordering.consumer);
      assert WithConsumer(s, s.ordering.consumer) == s;
    }
    hide StepAll, Others;
  }

  /** One call of the consumer, with the others' steps before it, is a run. */
  lemma {:induction false} CallIsARun(c: Config, s: System, fates: seq<Fate>) returns (events: seq<Event>)
    ensures StepAll(c, s, events) == Consume(Meanwhile(c, s, fates), Upcoming(fates))
  {
    var others, call := if |fates| == 0 then [] else Others(fates[0].meanwhile), [CallConsumer(Upcoming(fates))];
    var t := Meanwhile(c, s, fates);
    MeanwhileIsARun(c, s, fates);
    hide Consume, Meanwhile, Others;
    assert StepAll(c, t, call) == Step(c, t, call[0]);
    hide StepAll;
    PipelineRuns.StepAllOfConcat(c, s, others, call);
    events := others + call;
  }

  lemma {:induction false} RunIsARun(c: Config, s: System, fates: seq<Fate>)
    ensures exists events :: Run(c, s, fates).0 == StepAll(c, s, events)
    decreases CallsLeft(s.ordering.consumer)
  {
    if s.ordering.consumer.Waiting? {
      assert StepAll(c, s, []) == s;
    } else {
      hide Run, StepAll, Consume, Meanwhile;
      var t := Meanwhile(c, s, fates);
      CallsRunOut(t, Upcoming(fates));
      var after := Consume(t, Upcoming(fates));
      var first := CallIsARun(c, s, fates);
      RunUnfolds(c, s, fates);
      RunIsARun(c, after, Left(fates));
      var rest :| Run(c, after, Left(fates)).0 == StepAll(c, after, rest);
      PipelineRuns.StepAllOfConcat(c, s, first, rest);
    }
  }

  /** A whole delivery of a queued message, with any failures and any steps of the other components in
   *  between, is a run of the pipeline: so all that holds of its runs holds of the consumer. */
  lemma {:induction false} DeliveryIsARun(c: Config, s: System, m: Message, fates: seq<Fate>)
    requires s.ordering.consumer.Waiting? && m in s.broker.queue
    ensures exists events :: Run(c, WithConsumer(s, Opened(m)), fates).0 == StepAll(c, s, events)
  {
    var u := WithConsumer(s, Opened(m));
    assert Step(c, s, Deliver(m)) == u by { hide Opened; }
    RunIsARun(c, u, fates);
    hide Run, Step, Opened;
    var rest :| Run(c, u, fates).0 == StepAll(c, u, rest);
    assert StepAll(c, s, [Deliver(m)]) == Step(c, s, Deliver(m));
    hide StepAll;
    PipelineRuns.StepAllOfConcat(c, s, [Deliver(m)], rest);
  }
}
