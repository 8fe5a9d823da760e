/** What becomes of a message when every call of its delivery succeeds, and of a message without an id. */
module CheckoutConsumerDeliveries {
  import opened Calls
  import opened Ids
  import opened Checkout
  import opened Envelopes
  import opened Pipeline
  import opened CheckoutConsumer

  /** Nobody comes in between and every call succeeds; no delivery makes more than five. */
  predicate Smooth(fates: seq<Fate>, n: nat) {
    |fates| >= n && forall i :: 0 <= i < n ==> fates[i].meanwhile == [] && fates[i].x.outcome.Succeeds?
  }

  lemma {:induction false} NobodyInBetween(c: Config, s: System, fates: seq<Fate>)
    requires |fates| != 0 && fates[0].meanwhile == []
    ensures Meanwhile(c, s, fates) == s
  {
    assert StepAll(c, WithConsumer(s, Waiting), Others(fates[0].meanwhile)) == WithConsumer(s, Waiting);
    hide StepAll, Others;
  }

  lemma {:induction false} NextCall(c: Config, s: System, fates: seq<Fate>)
    requires !s.ordering.consumer.Waiting? && |fates| != 0 && fates[0].meanwhile == []
    ensures Run(c, s, fates) == Run(c, Consume(s, fates[0].x), fates[1..])
  {
    RunUnfolds(c, s, fates);
    NobodyInBetween(c, s, fates);
    hide Run, Consume, Meanwhile;
  }

  /** The message is acknowledged and gone; nothing else happens. */
  lemma {:induction false} Acknowledged(c: Config, s: System, m: Message, fates: seq<Fate>)
    requires s.ordering.consumer == Acking(m) && Smooth(fates, 1)
    ensures var t := Run(c, s, fates).0;
            t == s.(broker := s.broker.(queue := s.broker.queue - multiset{m}),
                    ordering := s.ordering.(consumer := Waiting))
  {
    NextCall(c, s, fates);
    RunEnds(c, Consume(s, fates[0].x), fates[1..]);
    hide Run;
  }

  /** What is claimed and acceptable becomes an order and is completed; what no order can be made of is copied to
   *  the error queue with its reason. */
  ghost predicate IsDealtWith(s: System, t: System, m: Message, e: Envelope) {
    && t.shop == s.shop && t.outbox == s.outbox && t.committed == s.committed
    && t.broker.queue == s.broker.queue - multiset{m}
    && t.ordering.incomplete == s.ordering.incomplete && t.ordering.consumer.Waiting?
    && (if e.payload.Encoded? && Orderable(e.payload.event)
        then
          && t.ordering.inbox == s.ordering.inbox[e.id := true] && t.broker.errors == s.broker.errors
          && (exists x :: t.ordering.orders == s.ordering.orders + [PlacedBy(e, x)])
        else
          && t.ordering.inbox == s.ordering.inbox[e.id := false] && t.ordering.orders == s.ordering.orders
          && (exists reason :: t.broker.errors == s.broker.errors + multiset{Rejected(m, reason)}))
  }

  lemma {:induction false} JudgedIsDealtWith(c: Config, s: System, m: Message, e: Envelope, fates: seq<Fate>)
    requires s.ordering.consumer == Judged(m, e) && e.id in s.ordering.inbox && !s.ordering.inbox[e.id]
    requires Smooth(fates, 3)
    ensures IsDealtWith(s, Run(c, s, fates).0, m, e)
  {
    hide Orderable, PlacedBy, Rejected, Run;
    var u := Consume(s, fates[0].x);
    NextCall(c, s, fates);
    if e.payload.Encoded? && Orderable(e.payload.event) {
      var v := Consume(u, fates[1].x);
      NextCall(c, u, fates[1..]);
      assert fates[1..][1..] == fates[2..];
      Acknowledged(c, v, m, fates[2..]);
      assert Run(c, s, fates).0.ordering.orders == s.ordering.orders + [PlacedBy(e, fates[0].x)];
    } else {
      Acknowledged(c, u, m, fates[1..]);
      assert Run(c, s, fates).0.broker.errors == s.broker.errors + multiset{Rejected(m, fates[0].x.reason)};
      assert s.ordering.inbox[e.id := false] == s.ordering.inbox;
    }
  }

  lemma {:induction false} ClaimCall(s: System, m: Message, e: Envelope, x: Chance)
    requires s.ordering.consumer == Claiming(m, e) && x.outcome.Succeeds?
    ensures Consume(s, x) == if e.id in s.ordering.inbox then WithConsumer(s, Asking(m, e))
                             else s.(ordering := s.ordering.(inbox := s.ordering.inbox[e.id := false], consumer := Judged(m, e)))
  {
    hide Judged;
  }

  lemma {:induction false} AskCall(s: System, m: Message, e: Envelope, x: Chance)
    requires s.ordering.consumer == Asking(m, e) && x.outcome.Succeeds? && e.id in s.ordering.inbox
    ensures Consume(s, x) == WithConsumer(s, if s.ordering.inbox[e.id] then Acking(m) else Judged(m, e))
  {
    hide Judged;
  }

  lemma {:induction false} DealtWithSinceClaim(s: System, v: System, t: System, m: Message, e: Envelope)
    requires IsDealtWith(v, t, m, e)
    requires v == s.(ordering := s.ordering.(inbox := s.ordering.inbox[e.id := false], consumer := v.ordering.consumer))
    ensures IsDealtWith(s, t, m, e)
  {
    hide PlacedBy, Rejected, Orderable;
    assert s.ordering.inbox[e.id := false][e.id := true] == s.ordering.inbox[e.id := true];
    assert s.ordering.inbox[e.id := false][e.id := false] == s.ordering.inbox[e.id := false];
  }

  lemma {:induction false} ClaimIsDealtWith(c: Config, s: System, m: Message, e: Envelope, fates: seq<Fate>)
    requires s.ordering.consumer == Claiming(m, e) && Smooth(fates, 5)
    ensures var t := Run(c, s, fates).0;
            if e.id in s.ordering.inbox && s.ordering.inbox[e.id]
            then t == s.(broker := s.broker.(queue := s.broker.queue - multiset{m}),
                         ordering := s.ordering.(consumer := Waiting))
            else IsDealtWith(s, t, m, e)
  {
    hide Run, Judged, IsDealtWith, Consume;
    ClaimCall(s, m, e, fates[0].x);
    NextCall(c, s, fates);
    var v := Consume(s, fates[0].x);
    if e.id !in s.ordering.inbox {
      JudgedIsDealtWith(c, v, m, e, fates[1..]);
      DealtWithSinceClaim(s, v, Run(c, v, fates[1..]).0, m, e);
    } else {
      AskCall(v, m, e, fates[1].x);
      NextCall(c, v, fates[1..]);
      assert fates[1..][1..] == fates[2..];
      var w := Consume(v, fates[1].x);
      if s.ordering.inbox[e.id] {
        Acknowledged(c, w, m, fates[2..]);
      } else {
        JudgedIsDealtWith(c, w, m, e, fates[2..]);
        assert s.ordering.inbox[e.id := false] == s.ordering.inbox;
        DealtWithSinceClaim(s, w, Run(c, w, fates[2..]).0, m, e);
      }
    }
  }

  lemma {:induction false} DealtWithWhoeverConsumes(s: System, stage: Stage, t: System, m: Message, e: Envelope)
    requires IsDealtWith(WithConsumer(s, stage), t, m, e)
    ensures IsDealtWith(s, t, m, e)
  {
    hide PlacedBy, Rejected, Orderable;
  }

  /** The message goes at once: back to the queue, or nowhere. */
  lemma {:induction false} NotOpened(c: Config, s: System, m: Message, fates: seq<Fate>)
    requires (s.ordering.consumer == Discarding(m) || s.ordering.consumer == Requeueing(m)) && Smooth(fates, 1)
    ensures Run(c, s, fates).0
            == s.(broker := if s.ordering.consumer.Discarding? then s.broker.(queue := s.broker.queue - multiset{m}) else s.broker,
                  ordering := s.ordering.(consumer := Waiting))
  {
    NextCall(c, s, fates);
    RunEnds(c, Consume(s, fates[0].x), fates[1..]);
    hide Run;
  }

  /** A delivery whose calls all succeed: an unreadable message is dropped; one whose nil id cannot be claimed
   *  goes back to the queue; one already completed is acknowledged without work; any other, claimed before or
   *  not, becomes exactly one order or is set aside. */
  lemma {:induction false} DeliveryDecides(c: Config, s: System, m: Message, fates: seq<Fate>)
    requires s.ordering.consumer.Waiting? && Smooth(fates, 5)
    ensures var e, t := EnvelopeFrom(m), Run(c, WithConsumer(s, Opened(m)), fates).0;
            if e.None? then t == s.(broker := s.broker.(queue := s.broker.queue - multiset{m}))
            else if e.value.id == NIL then t == s
            else if e.value.id in s.ordering.inbox && s.ordering.inbox[e.value.id]
            then t == s.(broker := s.broker.(queue := s.broker.queue - multiset{m}))
            else IsDealtWith(s, t, m, e.value)
  {
    hide EnvelopeFrom, Run, IsDealtWith;
    var e, u := EnvelopeFrom(m), WithConsumer(s, Opened(m));
    if e.None? || e.value.id == NIL {
      NotOpened(c, u, m, fates);
    } else {
      ClaimIsDealtWith(c, u, m, e.value, fates);
      if !(e.value.id in s.ordering.inbox && s.ordering.inbox[e.value.id]) {
        DealtWithWhoeverConsumes(s, Opened(m), Run(c, u, fates).0, m, e.value);
      }
    }
  }

  /** A nil id is never claimed and never ordered, from any state, whatever happens: no step puts one in the inbox,
   *  among the orders, or in a stage that would. */
  ghost predicate NoNilId(o: Ordering) {
    && NIL !in o.inbox
    && (forall i :: 0 <= i < |o.orders| ==> o.orders[i].messageId != NIL)
    && (o.consumer.Claiming? || o.consumer.Asking? || o.consumer.Placing? || o.consumer.Completing? ==>
          o.consumer.envelope.id != NIL)
  }

  lemma {:induction false} CallKeepsNoNilId(o: Ordering, x: Chance)
    requires NoNilId(o)
    ensures NoNilId(CallOrdering(o, x))
  {
    hide Orderable, PlacementOf;
  }

  lemma {:induction false} NilIdIsNeverClaimed(c: Config, s: System, events: seq<Event>)
    requires NoNilId(s.ordering)
    ensures NoNilId(StepAll(c, s, events).ordering)
    decreases |events|
  {
    if |events| != 0 {
      var t := Step(c, s, events[0]);
      assert NoNilId(t.ordering) by {
        if events[0].CallConsumer? { CallKeepsNoNilId(s.ordering, events[0].x); }
        hide Announcement, CallStore, CallOrdering, CallBroker, OnWire, Record, IsDue, Stopped, EnvelopeFrom;
      }
      hide Step, NoNilId;
      NilIdIsNeverClaimed(c, t, events[1..]);
    }
  }
}
