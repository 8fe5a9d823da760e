/** Basket's relay as it runs: read a batch, publish each message, then delete, fail or poison it.
 *
 *  Each method is tied to the pipeline's own steps, with other components' steps before every call.
 */
module CheckoutRelay {
  import opened Calls
  import opened Ids
  import opened Envelopes
  import opened Pipeline
  import PipelineSteps
  import PipelineRuns

  predicate OfRelay(e: Event) {
    e.ReadDue? || e.CallRelay? || e.StopRelay?
  }

  function Others(events: seq<Event>): seq<Event> {
    if |events| == 0 then []
    else if OfRelay(events[0]) then Others(events[1..])
    else [events[0]] + Others(events[1..])
  }

  function WithRelay(s: System, w: Work): System {
    s.(outbox := s.outbox.(relay := w))
  }

  /** The others' steps, which neither read nor move the relay. */
  function Meanwhile(c: Config, s: System, fates: seq<Fate>): (t: System)
    ensures t.outbox.relay == s.outbox.relay
  {
    if |fates| == 0 then s
    else WithRelay(StepAll(c, WithRelay(s, Idle), Others(fates[0].meanwhile)), s.outbox.relay)
  }

  /** The table's key is the message id. */
  ghost predicate Keyed(rows: map<Uuid, Row>) {
    forall id :: id in rows ==> rows[id].envelope.id == id
  }

  lemma {:induction false} KeyedByOthers(c: Config, s: System, events: seq<Event>)
    requires Keyed(s.outbox.rows)
    ensures Keyed(StepAll(c, s, Others(events)).outbox.rows)
    decreases |events|
  {
    if |events| != 0 {
      if !OfRelay(events[0]) {
        PipelineSteps.OutboxOfStep(c, s, events[0]);
        hide Step;
        assert Others(events)[1..] == Others(events[1..]);
        KeyedByOthers(c, Step(c, s, events[0]), events[1..]);
      } else {
        KeyedByOthers(c, s, events[1..]);
      }
    }
  }

  lemma {:induction false} KeyedMeanwhile(c: Config, s: System, fates: seq<Fate>)
    requires Keyed(s.outbox.rows)
    ensures Keyed(Meanwhile(c, s, fates).outbox.rows)
  {
    if |fates| != 0 { KeyedByOthers(c, WithRelay(s, Idle), fates[0].meanwhile); }
    hide StepAll, Keyed;
  }

  /** The batch so far holds ready rows in order, all of them before every ready row that is left. */
  ghost predicate Picked(rows: map<Uuid, Row>, now: int, left: set<Uuid>, batch: seq<Due>) {
    && (forall id :: id in left ==> id in rows && IsReady(rows[id], now))
    && (forall i :: 0 <= i < |batch| ==>
          var id := batch[i].envelope.id;
          id in rows && IsReady(rows[id], now) && batch[i] == Due(rows[id].envelope, rows[id].attempts))
    && (forall i, j :: 0 <= i < j < |batch| ==> Before(batch[i].envelope, batch[j].envelope))
    && (forall i, id :: 0 <= i < |batch| && id in left ==> Before(batch[i].envelope, rows[id].envelope))
    && (forall id :: id in rows && IsReady(rows[id], now) && id !in left ==>
          Due(rows[id].envelope, rows[id].attempts) in batch)
  }

  lemma {:induction false} PickedOneMore(rows: map<Uuid, Row>, now: int, left: set<Uuid>, batch: seq<Due>, id: Uuid)
    requires Picked(rows, now, left, batch) && Keyed(rows) && id in left
    requires forall i :: i in left && i != id ==> Before(rows[id].envelope, rows[i].envelope)
    ensures Picked(rows, now, left - {id}, batch + [Due(rows[id].envelope, rows[id].attempts)])
  {
    hide Before, IsReady;
    var d := Due(rows[id].envelope, rows[id].attempts);
    assert (batch + [d])[|batch|] == d;
    assert forall e :: e in batch ==> e in batch + [d];
  }

  function CallsLeft(w: Work): nat {
    if w.Idle? then 0
    else 3 * |w.rest| + (if w.Polling? then 3 else if w.Publishing? then 2 else 1)
  }

  lemma {:induction false} CallsRunOut(c: Config, s: System, x: Chance)
    requires !s.outbox.relay.Idle?
    ensures CallsLeft(Relay(c, s, x).outbox.relay) < CallsLeft(s.outbox.relay)
  {
  }

  /** The cycle ends with an error. */
  predicate Breaks(w: Work, o: Outcome) {
    o.Fails? && (w.Deleting? || w.Failing? || w.Poisoning? || (w.Publishing? && o.cancelled))
  }

  datatype Ended = Ended(system: System, fates: seq<Fate>, published: nat, failed: bool)

  /** The relay from where it stands to the end of its cycle. */
  function Run(c: Config, s: System, fates: seq<Fate>, published: nat): Ended
    decreases CallsLeft(s.outbox.relay)
  {
    var w, x := s.outbox.relay, Upcoming(fates);
    if w.Idle? then Ended(s, fates, published, false)
    else
      var t := Meanwhile(c, s, fates);
      CallsRunOut(c, t, x);
      var after := Relay(c, t, x);
      if Breaks(w, x.outcome) then Ended(after, Left(fates), published, true)
      else Run(c, after, Left(fates), if w.Deleting? then published + 1 else published)
  }

  /** Basket's database and the broker, as the one relay finds them. */
  class Backends {
    const config: Config
    var shop: Shop
    var rows: map<Uuid, Row>
    var sent: seq<Envelope>
    var accepted: set<Uuid>
    var broker: Broker
    var ordering: Ordering
    var committed: set<Uuid>
    var fates: seq<Fate>
    /** Where the relay stands. */
    ghost var work: Work

    ghost function Now(): System
      reads this
    {
      System(shop, Outbox(rows, work, sent, accepted), broker, ordering, committed)
    }

    /** Others take their steps until the next call is decided. */
    method Wait() returns (x: Chance)
      modifies this
      ensures Now() == Meanwhile(config, old(Now()), old(fates))
      ensures x == Upcoming(old(fates)) && fates == Left(old(fates)) && work == old(work)
    {
      hide StepAll, Others;
      if |fates| == 0 {
        return Ending(Fails(false, false));
      }
      var s := StepAll(config, System(shop, Outbox(rows, Idle, sent, accepted), broker, ordering, committed),
                       Others(fates[0].meanwhile));
      x := fates[0].x;
      shop, rows, sent, accepted := s.shop, s.outbox.rows, s.outbox.sent, s.outbox.accepted;
      broker, ordering, committed := s.broker, s.ordering, s.committed;
      fates := fates[1..];
    }

    /** The ready row that comes before all others left. */
    method Oldest(left: set<Uuid>) returns (id: Uuid)
      requires left != {} && Keyed(rows) && forall i :: i in left ==> i in rows
      ensures id in left && forall i :: i in left && i != id ==> Before(rows[id].envelope, rows[i].envelope)
    {
      id :| id in left;
      var unseen := left - {id};
      while unseen != {}
        invariant unseen <= left && id in left && id !in unseen
        invariant forall i :: i in left && i !in unseen && i != id ==> Before(rows[id].envelope, rows[i].envelope)
        decreases |unseen|
      {
        var other :| other in unseen;
        unseen := unseen - {other};
        if Before(rows[other].envelope, rows[id].envelope) {
          id := other;
        }
      }
    }

    /** Picks the oldest ready rows one by one, as many as the limit lets through. */
    method Select(limit: nat, now: int) returns (batch: seq<Due>)
      requires Keyed(rows)
      ensures IsDue(rows, limit, now, batch) && PipelineSteps.HoldsOldestDue(rows, limit, now, batch)
    {
      batch := [];
      var left := set id | id in rows && IsReady(rows[id], now);
      while left != {} && |batch| < limit
        invariant |batch| <= limit && Picked(rows, now, left, batch)
        decreases |left|
      {
        var id := Oldest(left);
        PickedOneMore(rows, now, left, batch, id);
        left := left - {id};
        batch := batch + [Due(rows[id].envelope, rows[id].attempts)];
        hide Picked;
      }
      PipelineSteps.DueIsOldestDue(rows, limit, now, batch);
    }

    /** The oldest ready rows; a negative limit is an error. */
    method ReadDue(limit: int, now: int) returns (ok: bool, batch: seq<Due>)
      requires Keyed(rows)
      modifies this
      ensures Now() == Meanwhile(config, old(Now()), old(fates)) && fates == Left(old(fates)) && Keyed(rows)
      ensures ok <==> Upcoming(old(fates)).outcome.Succeeds? && limit >= 0
      ensures ok ==> IsDue(rows, limit, now, batch) && PipelineSteps.HoldsOldestDue(rows, limit, now, batch)
    {
      hide IsDue, PipelineSteps.HoldsOldestDue, Meanwhile;
      KeyedMeanwhile(config, Now(), fates);
      var x := Wait();
      batch := [];
      ok := x.outcome.Succeeds? && limit >= 0;
      if ok {
        batch := Select(limit, now);
      }
    }

    /** Asks whether to stop. */
    method Poll() returns (goesOn: bool)
      requires work.Polling?
      modifies this
      ensures Now() == Relay(config, Meanwhile(config, old(Now()), old(fates)), Upcoming(old(fates)))
      ensures fates == Left(old(fates)) && goesOn == Upcoming(old(fates)).outcome.Succeeds?
    {
      var x := Wait();
      goesOn := x.outcome.Succeeds?;
      work := if goesOn then Publishing(work.now, work.rest) else Idle;
    }

    /** Sends one message; success means the broker has confirmed it. */
    method Publish(e: Envelope) returns (o: Outcome)
      requires work.Publishing? && e == work.now.envelope
      modifies this
      ensures Now() == Relay(config, Meanwhile(config, old(Now()), old(fates)), Upcoming(old(fates)))
      ensures fates == Left(old(fates)) && o == Upcoming(old(fates)).outcome
    {
      hide Meanwhile, OnWire, Step, StepAll, Others;
      var x := Wait();
      o := x.outcome;
      ghost var s := Now();
      if Effective(o) {
        sent := sent + [e];
        broker := Broker(broker.queue + multiset{OnWire(e, x)}, broker.errors);
      }
      if o.Succeeds? {
        accepted := accepted + {e.id};
      } else if !o.cancelled && e.id in rows {
        var row := rows[e.id];
        rows := rows[e.id := Row(row.envelope, row.attempts, row.nextAttempt, row.poisoned, row.refusals + 1, row.unrecorded)];
      }
      work := CallPublish(config, s.outbox, work.now, work.rest, x).relay;
    }

    method Delete(id: Uuid) returns (ok: bool)
      requires work.Deleting? && id == work.now.envelope.id
      modifies this
      ensures Now() == Relay(config, Meanwhile(config, old(Now()), old(fates)), Upcoming(old(fates)))
      ensures fates == Left(old(fates)) && ok == Upcoming(old(fates)).outcome.Succeeds?
    {
      hide Meanwhile;
      var x := Wait();
      if Effective(x.outcome) {
        rows := rows - {id};
      }
      ok := x.outcome.Succeeds?;
      work := if ok then Next(work.rest) else Idle;
    }

    /** Records a failed attempt; the call's clock already includes the wait before the next one. */
    method Fail(id: Uuid) returns (ok: bool)
      requires work.Failing? && id == work.now.envelope.id
      modifies this
      ensures Now() == Relay(config, Meanwhile(config, old(Now()), old(fates)), Upcoming(old(fates)))
      ensures fates == Left(old(fates)) && ok == Upcoming(old(fates)).outcome.Succeeds?
    {
      hide Meanwhile;
      var x := Wait();
      if id in rows {
        var row := rows[id];
        if Effective(x.outcome) {
          rows := rows[id := Row(row.envelope, row.attempts + 1, x.clock, row.poisoned, row.refusals, row.unrecorded)];
        } else {
          rows := MarkUnrecorded(rows, id);
        }
      }
      ok := x.outcome.Succeeds?;
      work := if ok then Next(work.rest) else Idle;
    }

    /** Gives up on a message that is not given up on yet. */
    method Poison(id: Uuid) returns (ok: bool)
      requires work.Poisoning? && id == work.now.envelope.id
      modifies this
      ensures Now() == Relay(config, Meanwhile(config, old(Now()), old(fates)), Upcoming(old(fates)))
      ensures fates == Left(old(fates)) && ok == Upcoming(old(fates)).outcome.Succeeds?
    {
      hide Meanwhile;
      var x := Wait();
      if !Effective(x.outcome) {
        rows := MarkUnrecorded(rows, id);
      } else if id in rows && !rows[id].poisoned {
        var row := rows[id];
        rows := rows[id := Row(row.envelope, row.attempts + 1, row.nextAttempt, true, row.refusals, row.unrecorded)];
      }
      ok := x.outcome.Succeeds?;
      work := if ok then Next(work.rest) else Idle;
    }

    /** The relay takes a batch in hand. */
    ghost method Take(batch: seq<Due>)
      modifies this`work
      ensures work == Next(batch)
    {
      work := Next(batch);
    }
  }

  class CheckoutRelay {
    const basket: Backends

    constructor (basket: Backends)
      ensures this.basket == basket
    {
      this.basket := basket;
    }

    /** One batch: every message in it is published and deleted, or its failure is recorded, until an
     *  error or a stop ends the cycle. Only messages published and deleted count. */
    method ProcessOnce(now: int) returns (published: nat, failed: bool, ghost batch: seq<Due>)
      requires basket.work.Idle? && Keyed(basket.rows)
      modifies basket
      ensures basket.work.Idle?
      ensures var c, s := basket.config, Meanwhile(basket.config, old(basket.Now()), old(basket.fates));
              if Upcoming(old(basket.fates)).outcome.Succeeds? && c.batchSize >= 0
              then
                && IsDue(s.outbox.rows, c.batchSize, now, batch)
                && Ended(basket.Now(), basket.fates, published, failed)
                   == Run(c, WithRelay(s, Next(batch)), Left(old(basket.fates)), 0)
              else basket.Now() == s && published == 0 && failed
    {
      hide IsDue, Run, Meanwhile;
      var c := basket.config;
      var ok, messages := basket.ReadDue(c.batchSize, now);
      batch, published := messages, 0;
      if !ok {
        return 0, true, messages;
      }
      basket.Take(messages);
      ghost var all := Run(c, basket.Now(), basket.fates, 0);
      CycleEndsIdle(c, basket.Now(), basket.fates, 0);
      assert messages[0..] == messages;
      for i := 0 to |messages|
        invariant basket.work == Next(messages[i..])
        invariant all == Run(c, basket.Now(), basket.fates, published)
      {
        assert messages[i..][0] == messages[i] && messages[i..][1..] == messages[i + 1..];
        RunUnfolds(c, basket.Now(), basket.fates, published);
        var goesOn := basket.Poll();
        if !goesOn {
          RunEnds(c, basket.Now(), basket.fates, published);
          return published, false, messages;
        }
        var sent;
        sent, failed := Publish(messages[i], published);
        if failed {
          return published, true, messages;
        }
        if sent {
          published := published + 1;
        }
      }
      RunEnds(c, basket.Now(), basket.fates, published);
      failed := false;
    }

    /** Sends one message and records what happened to it, saying whether the broker took it. */
    method Publish(message: Due, ghost published: nat) returns (sent: bool, failed: bool)
      requires basket.work.Publishing? && basket.work.now == message
      modifies basket
      ensures var all := Run(basket.config, old(basket.Now()), old(basket.fates), published);
              if failed then all == Ended(basket.Now(), basket.fates, published, true)
              else all == Run(basket.config, basket.Now(), basket.fates, if sent then published + 1 else published)
                   && basket.work == Next(old(basket.work).rest)
    {
      hide Run, Meanwhile, OnWire;
      var c := basket.config;
      RunUnfolds(c, basket.Now(), basket.fates, published);
      var outcome := basket.Publish(message.envelope);
      if outcome.Fails? && outcome.cancelled {
        return false, true;
      }
      RunUnfolds(c, basket.Now(), basket.fates, published);
      var ok;
      if outcome.Succeeds? {
        ok := basket.Delete(message.envelope.id);
      } else {
        var attempts := message.attempts + 1;
        if attempts >= c.maxAttempts {
          ok := basket.Poison(message.envelope.id);
        } else {
          ok := basket.Fail(message.envelope.id);
        }
      }
      sent, failed := outcome.Succeeds? && ok, !ok;
    }
  }

  lemma {:induction false} RunUnfolds(c: Config, s: System, fates: seq<Fate>, published: nat)
    requires !s.outbox.relay.Idle?
    ensures var w, x := s.outbox.relay, Upcoming(fates);
            var after := Relay(c, Meanwhile(c, s, fates), x);
            Run(c, s, fates, published)
            == if Breaks(w, x.outcome) then Ended(after, Left(fates), published, true)
               else Run(c, after, Left(fates), if w.Deleting? then published + 1 else published)
  {
  }

  lemma {:induction false} RunEnds(c: Config, s: System, fates: seq<Fate>, published: nat)
    requires s.outbox.relay.Idle?
    ensures Run(c, s, fates, published) == Ended(s, fates, published, false)
  {
  }

  /** However a cycle ends, it leaves nothing in hand. */
  lemma {:induction false} CycleEndsIdle(c: Config, s: System, fates: seq<Fate>, published: nat)
    ensures Run(c, s, fates, published).system.outbox.relay.Idle?
    decreases CallsLeft(s.outbox.relay)
  {
    var w, x := s.outbox.relay, Upcoming(fates);
    if w.Idle? {
      RunEnds(c, s, fates, published);
    } else {
      var t := Meanwhile(c, s, fates);
      CallsRunOut(c, t, x);
      assert Breaks(w, x.outcome) ==> Relay(c, t, x).outbox.relay.Idle? by { hide Meanwhile, OnWire; }
      RunUnfolds(c, s, fates, published);
      hide Run, Relay, Meanwhile, Breaks;
      if !Breaks(w, x.outcome) {
        CycleEndsIdle(c, Relay(c, t, x), Left(fates), if w.Deleting? then published + 1 else published);
      }
    }
  }

  // A cycle is a run of the pipeline.

  lemma {:induction false} OthersIgnoreRelay(c: Config, s: System, e: Event, w: Work)
    requires !OfRelay(e)
    ensures Step(c, WithRelay(s, w), e) == WithRelay(Step(c, s, e), w)
  {
    hide Announcement, Record, CallOrdering, CallBroker, Crashed, Opened;
  }

  lemma {:induction false} AllOthersIgnoreRelay(c: Config, s: System, events: seq<Event>, w: Work)
    ensures StepAll(c, WithRelay(s, w), Others(events)) == WithRelay(StepAll(c, s, Others(events)), w)
    decreases |events|
  {
    if |events| != 0 {
      if OfRelay(events[0]) {
        AllOthersIgnoreRelay(c, s, events[1..], w);
      } else {
        assert Others(events)[1..] == Others(events[1..]);
        OthersIgnoreRelay(c, s, events[0], w);
        hide Step;
        AllOthersIgnoreRelay(c, Step(c, s, events[0]), events[1..], w);
      }
    }
  }

  lemma {:induction false} MeanwhileIsARun(c: Config, s: System, fates: seq<Fate>)
    ensures Meanwhile(c, s, fates) == StepAll(c, s, if |fates| == 0 then [] else Others(fates[0].meanwhile))
  {
    if |fates| != 0 {
      AllOthersIgnoreRelay(c, s, fates[0].meanwhile, Idle);
      AllOthersIgnoreRelay(c, s, fates[0].meanwhile, s.outbox.relay);
      assert WithRelay(s, s.outbox.relay) == s;
    }
    hide StepAll, Others;
  }

  // What a cycle reports, told by the steps alone.

  /** How many messages the relay's calls removed from the table with the database's confirmation. */
  ghost function Deletions(c: Config, s: System, events: seq<Event>): nat
    decreases |events|
  {
    if |events| == 0 then 0
    else
      var e := events[0];
      (if e.CallRelay? && s.outbox.relay.Deleting? && e.x.outcome.Succeeds? then 1 else 0)
      + Deletions(c, Step(c, s, e), events[1..])
  }

  /** The last call is the relay's and failed, and neither was it a poll nor did the broker merely refuse. */
  ghost predicate EndsInError(c: Config, s: System, events: seq<Event>) {
    |events| != 0 &&
    var last, w := events[|events| - 1], StepAll(c, s, events[..|events| - 1]).outbox.relay;
    && last.CallRelay? && last.x.outcome.Fails?
    && !w.Idle? && !w.Polling? && (w.Publishing? ==> last.x.outcome.cancelled)
  }

  lemma {:induction false} DeletionsOfConcat(c: Config, s: System, a: seq<Event>, b: seq<Event>)
    ensures Deletions(c, s, a + b) == Deletions(c, s, a) + Deletions(c, StepAll(c, s, a), b)
    decreases |a|
  {
    hide Step;
    if |a| == 0 {
      assert a + b == b;
    } else {
      assert (a + b)[0] == a[0] && (a + b)[1..] == a[1..] + b;
      DeletionsOfConcat(c, Step(c, s, a[0]), a[1..], b);
    }
  }

  lemma {:induction false} OthersDeleteNothing(c: Config, s: System, events: seq<Event>)
    requires forall i :: 0 <= i < |events| ==> !events[i].CallRelay?
    ensures Deletions(c, s, events) == 0
    decreases |events|
  {
    hide Step;
    if |events| != 0 { OthersDeleteNothing(c, Step(c, s, events[0]), events[1..]); }
  }

  lemma {:induction false} OthersAreOthers(events: seq<Event>)
    ensures forall i :: 0 <= i < |Others(events)| ==> !OfRelay(Others(events)[i])
    decreases |events|
  {
    if |events| != 0 { OthersAreOthers(events[1..]); }
  }

  lemma {:induction false} ErrorOfConcat(c: Config, s: System, a: seq<Event>, b: seq<Event>)
    requires |b| != 0
    ensures EndsInError(c, s, a + b) <==> EndsInError(c, StepAll(c, s, a), b)
  {
    hide StepAll;
    PipelineRuns.StepAllOfConcat(c, s, a, b[..|b| - 1]);
    assert (a + b)[..|a + b| - 1] == a + b[..|b| - 1];
  }

  lemma {:induction false} OneCall(c: Config, s: System, x: Chance)
    ensures var call, w := [CallRelay(x)], s.outbox.relay;
            && StepAll(c, s, call) == Relay(c, s, x)
            && Deletions(c, s, call) == (if w.Deleting? && x.outcome.Succeeds? then 1 else 0)
            && (EndsInError(c, s, call) <==> Breaks(w, x.outcome))
  {
    hide Relay;
    var call := [CallRelay(x)];
    assert StepAll(c, s, call[..0]) == s;
    assert Step(c, s, call[0]) == Relay(c, s, x);
    hide Step;
    assert Deletions(c, Step(c, s, call[0]), call[1..]) == 0;
  }

  /** One call of the relay, with the others' steps before it, is a run. */
  lemma {:induction false} CallIsARun(c: Config, s: System, fates: seq<Fate>) returns (events: seq<Event>)
    ensures StepAll(c, s, events) == Relay(c, Meanwhile(c, s, fates), Upcoming(fates))
    ensures Deletions(c, s, events) == if s.outbox.relay.Deleting? && Upcoming(fates).outcome.Succeeds? then 1 else 0
    ensures |events| != 0
    ensures EndsInError(c, s, events) <==> Breaks(s.outbox.relay, Upcoming(fates).outcome)
  {
    var others, x := if |fates| == 0 then [] else Others(fates[0].meanwhile), Upcoming(fates);
    var t := Meanwhile(c, s, fates);
    MeanwhileIsARun(c, s, fates);
    if |fates| != 0 { OthersAreOthers(fates[0].meanwhile); }
    hide Relay, Meanwhile, Others, StepAll, EndsInError, Deletions, Breaks, Upcoming;
    OneCall(c, t, x);
    OthersDeleteNothing(c, s, others);
    PipelineRuns.StepAllOfConcat(c, s, others, [CallRelay(x)]);
    DeletionsOfConcat(c, s, others, [CallRelay(x)]);
    ErrorOfConcat(c, s, others, [CallRelay(x)]);
    events := others + [CallRelay(x)];
  }

  /** Whatever the relay does in one cycle, with any failures and with any steps of the other components
   *  in between, the pipeline can do: so all that holds of its runs holds of the relay. */
  lemma {:induction false} RunIsARun(c: Config, s: System, fates: seq<Fate>, published: nat) returns (events: seq<Event>)
    ensures var e := Run(c, s, fates, published);
            && e.system == StepAll(c, s, events) && e.published == published + Deletions(c, s, events)
            && (e.failed <==> EndsInError(c, s, events))
    decreases CallsLeft(s.outbox.relay)
  {
    var w, x := s.outbox.relay, Upcoming(fates);
    if w.Idle? {
      events := [];
    } else {
      hide Run, StepAll, Relay, Meanwhile, Deletions, EndsInError;
      var t := Meanwhile(c, s, fates);
      CallsRunOut(c, t, x);
      var after := Relay(c, t, x);
      events := CallIsARun(c, s, fates);
      RunUnfolds(c, s, fates, published);
      if !Breaks(w, x.outcome) {
        var p := if w.Deleting? then published + 1 else published;
        var rest := RunIsARun(c, after, Left(fates), p);
        PipelineRuns.StepAllOfConcat(c, s, events, rest);
        DeletionsOfConcat(c, s, events, rest);
        if |rest| == 0 {
          assert events + rest == events;
          assert !EndsInError(c, after, rest) by { NothingIsNoError(c, after, rest); }
        } else {
          ErrorOfConcat(c, s, events, rest);
        }
        events := events + rest;
      }
    }
  }

  lemma {:induction false} NothingIsNoError(c: Config, s: System, events: seq<Event>)
    requires |events| == 0
    ensures !EndsInError(c, s, events)
  {
  }

  /** The run does what the cycle did, and by its steps alone accounts for what the cycle reported: how many
   *  messages it published and removed, and whether it ended in an error. */
  ghost predicate TellsCycle(c: Config, s: System, events: seq<Event>, e: Ended) {
    && e.system == StepAll(c, s, events) && e.published == Deletions(c, s, events)
    && (e.failed <==> EndsInError(c, s, events))
  }

  /** A whole cycle, reading its batch first, is a run of the pipeline. */
  lemma {:induction false} CycleIsARun(c: Config, s: System, fates: seq<Fate>, now: int, batch: seq<Due>)
    requires s.outbox.relay.Idle?
    requires var t := Meanwhile(c, s, fates); IsDue(t.outbox.rows, c.batchSize, now, batch)
    ensures var t := Meanwhile(c, s, fates);
            exists events :: TellsCycle(c, s, events, Run(c, WithRelay(t, Next(batch)), Left(fates), 0))
  {
    var t := Meanwhile(c, s, fates);
    var u := WithRelay(t, Next(batch));
    var read := [ReadDue(now, batch)];
    assert Step(c, t, read[0]) == u by { hide IsDue, Next, Meanwhile; }
    var others := if |fates| == 0 then [] else Others(fates[0].meanwhile);
    MeanwhileIsARun(c, s, fates);
    if |fates| != 0 { OthersAreOthers(fates[0].meanwhile); }
    hide IsDue, Run, Step, Meanwhile, Others, Next, Deletions, EndsInError;
    var rest := RunIsARun(c, u, Left(fates), 0);
    assert StepAll(c, t, read) == Step(c, t, read[0]);
    hide StepAll;
    PipelineRuns.StepAllOfConcat(c, s, others, read);
    var before := others + read;
    OthersDeleteNothing(c, s, before);
    JoinsCycle(c, s, before, rest, Run(c, u, Left(fates), 0));
  }

  lemma {:induction false} JoinsCycle(c: Config, s: System, before: seq<Event>, rest: seq<Event>, e: Ended)
    requires |before| != 0 && before[|before| - 1].ReadDue? && Deletions(c, s, before) == 0
    requires TellsCycle(c, StepAll(c, s, before), rest, e)
    ensures TellsCycle(c, s, before + rest, e)
  {
    hide Deletions, StepAll;
    PipelineRuns.StepAllOfConcat(c, s, before, rest);
    DeletionsOfConcat(c, s, before, rest);
    if |rest| == 0 {
      assert before + rest == before;
    } else {
      ErrorOfConcat(c, s, before, rest);
    }
  }
}
