/** What a cycle of Basket's relay achieves when only the broker stands in its way. */
module CheckoutRelayCycles {
  import opened Calls
  import opened Ids
  import opened Envelopes
  import opened Pipeline
  import opened PipelineInvariant
  import opened PipelineSteps
  import opened CheckoutRelay

  /** The fates of one message, poll, publish and store: nobody comes in between, nobody says stop, and the
   *  database works. The broker may refuse. */
  predicate OnlyBrokerRefuses(fates: seq<Fate>) {
    && |fates| >= 3
    && (forall i :: 0 <= i < 3 ==> fates[i].meanwhile == [])
    && fates[0].x.outcome.Succeeds? && fates[2].x.outcome.Succeeds?
    && (fates[1].x.outcome.Fails? ==> !fates[1].x.outcome.cancelled)
  }

  predicate Undisturbed(fates: seq<Fate>, n: nat) {
    n == 0 || (OnlyBrokerRefuses(fates) && Undisturbed(fates[3..], n - 1))
  }

  function Confirmed(fates: seq<Fate>, n: nat): nat
    requires Undisturbed(fates, n)
  {
    if n == 0 then 0 else (if fates[1].x.outcome.Succeeds? then 1 else 0) + Confirmed(fates[3..], n - 1)
  }

  /** A confirmed message leaves the table. A refused one keeps its row with one more attempt: given up on if
   *  that makes as many as are allowed, and else due again at the time the database was told. */
  predicate IsSettled(c: Config, before: map<Uuid, Row>, after: map<Uuid, Row>, id: Uuid, publish: Outcome, time: int)
    requires id in before
  {
    if publish.Succeeds? then id !in after
    else
      && id in after && after[id].envelope == before[id].envelope
      && after[id].attempts == before[id].attempts + 1
      && (if before[id].attempts + 1 >= c.maxAttempts then after[id].poisoned
          else !after[id].poisoned && after[id].nextAttempt == time)
  }

  predicate Untouched(before: map<Uuid, Row>, after: map<Uuid, Row>, id: Uuid) {
    (id in after <==> id in before) && (id in after ==> after[id] == before[id])
  }

  predicate NotIn(batch: seq<Due>, id: Uuid) {
    forall i :: 0 <= i < |batch| ==> batch[i].envelope.id != id
  }

  /** Every message of the batch is settled as its own calls went, and no other row has changed. */
  ghost predicate AllSettled(c: Config, before: map<Uuid, Row>, after: map<Uuid, Row>, batch: seq<Due>, fates: seq<Fate>) {
    && |fates| >= 3 * |batch|
    && (forall i :: 0 <= i < |batch| ==>
          && batch[i].envelope.id in before
          && IsSettled(c, before, after, batch[i].envelope.id, fates[3 * i + 1].x.outcome, fates[3 * i + 2].x.clock))
    && (forall id :: NotIn(batch, id) ==> Untouched(before, after, id))
  }

  lemma {:induction false} NobodyInBetween(c: Config, s: System, fates: seq<Fate>)
    requires |fates| != 0 && fates[0].meanwhile == []
    ensures Meanwhile(c, s, fates) == s
  {
    assert StepAll(c, WithRelay(s, Idle), Others(fates[0].meanwhile)) == WithRelay(s, Idle);
    hide StepAll, Others;
  }

  lemma {:induction false} NextCall(c: Config, s: System, fates: seq<Fate>, published: nat)
    requires !s.outbox.relay.Idle? && |fates| != 0 && fates[0].meanwhile == []
    requires !Breaks(s.outbox.relay, fates[0].x.outcome)
    ensures Run(c, s, fates, published)
            == Run(c, Relay(c, s, fates[0].x), fates[1..], if s.outbox.relay.Deleting? then published + 1 else published)
  {
    RunUnfolds(c, s, fates, published);
    NobodyInBetween(c, s, fates);
    hide Run, Relay, Meanwhile;
  }

  /** Poll and publish: what is left to do, and the row with at most a refusal more to its name. */
  lemma {:induction false} PollAndPublish(c: Config, s: System, fates: seq<Fate>)
    requires OnlyBrokerRefuses(fates) && s.outbox.relay.Polling?
    ensures var now, id, rows := s.outbox.relay.now, s.outbox.relay.now.envelope.id, s.outbox.rows;
            var u := Relay(c, s, fates[0].x);
            var v := Relay(c, u, fates[1].x).outbox;
            && u.outbox.relay == Publishing(now, s.outbox.relay.rest)
            && !v.relay.Idle? && !v.relay.Polling? && !v.relay.Publishing?
            && (v.relay.Deleting? <==> fates[1].x.outcome.Succeeds?)
            && v.relay.now == now && v.relay.rest == s.outbox.relay.rest
            && (v.relay.Poisoning? <==> fates[1].x.outcome.Fails? && now.attempts + 1 >= c.maxAttempts)
            && (forall other :: other != id ==> Untouched(rows, v.rows, other))
            && (id in rows ==> id in v.rows && v.rows[id] == rows[id].(refusals := v.rows[id].refusals))
  {
    hide OnWire;
  }

  lemma {:induction false} StoreCall(c: Config, s: System, x: Chance)
    requires var w := s.outbox.relay; (w.Deleting? || w.Failing? || w.Poisoning?) && w.now.envelope.id in s.outbox.rows
    requires x.outcome.Succeeds? && !s.outbox.rows[s.outbox.relay.now.envelope.id].poisoned
    ensures var w, id, rows, o := s.outbox.relay, s.outbox.relay.now.envelope.id, s.outbox.rows, Relay(c, s, x).outbox;
            && o.relay == Next(w.rest)
            && (forall other :: other != id ==> Untouched(rows, o.rows, other))
            && (w.Deleting? ==> id !in o.rows)
            && (!w.Deleting? ==>
                  && id in o.rows && o.rows[id].envelope == rows[id].envelope && o.rows[id].attempts == rows[id].attempts + 1
                  && (if w.Poisoning? then o.rows[id].poisoned else !o.rows[id].poisoned && o.rows[id].nextAttempt == x.clock))
  {
    hide Next;
  }

  lemma {:induction false} RunOfMessage(c: Config, s: System, fates: seq<Fate>, published: nat)
    requires OnlyBrokerRefuses(fates) && s.outbox.relay.Polling?
    ensures Run(c, s, fates, published)
            == Run(c, Relay(c, Relay(c, Relay(c, s, fates[0].x), fates[1].x), fates[2].x), fates[3..],
                   if fates[1].x.outcome.Succeeds? then published + 1 else published)
  {
    PollAndPublish(c, s, fates);
    hide Run, Relay;
    var u := Relay(c, s, fates[0].x);
    NextCall(c, s, fates, published);
    NextCall(c, u, fates[1..], published);
    NextCall(c, Relay(c, u, fates[1].x), fates[1..][1..], published);
    assert fates[1..][1..][1..] == fates[3..];
  }

  /** One message, start to end. */
  lemma {:induction false} MessageIsSettled(c: Config, s: System, fates: seq<Fate>)
    requires OnlyBrokerRefuses(fates) && s.outbox.relay.Polling? && UpToDate(s.outbox.rows, Batch(s.outbox.relay))
    ensures var now, rows := s.outbox.relay.now, s.outbox.rows;
            var t := Relay(c, Relay(c, Relay(c, s, fates[0].x), fates[1].x), fates[2].x);
            && t.outbox.relay == Next(s.outbox.relay.rest)
            && now.envelope.id in rows
            && IsSettled(c, rows, t.outbox.rows, now.envelope.id, fates[1].x.outcome, fates[2].x.clock)
            && (forall id :: id != now.envelope.id ==> Untouched(rows, t.outbox.rows, id))
  {
    hide UpToDate, Batch, Relay, Untouched;
    InHand(s.outbox.rows, s.outbox.relay);
    PollAndPublish(c, s, fates);
    var v := Relay(c, Relay(c, s, fates[0].x), fates[1].x);
    StoreCall(c, v, fates[2].x);
    var id, after := s.outbox.relay.now.envelope.id, Relay(c, v, fates[2].x).outbox.rows;
    forall other | other != id ensures Untouched(s.outbox.rows, after, other) {
      UntouchedTwice(s.outbox.rows, v.outbox.rows, after, other);
    }
  }

  /** A cycle that only the broker disturbs handles its whole batch: it does not end in an error, it counts the
   *  messages the broker confirmed, every confirmed message has left the table, every refused one has its
   *  failure on record, and no other row has changed. */
  lemma {:induction false} CycleHandlesItsBatch(c: Config, s: System, batch: seq<Due>, fates: seq<Fate>, published: nat)
    requires s.outbox.relay == Next(batch) && UpToDate(s.outbox.rows, batch) && Undisturbed(fates, |batch|)
    ensures var e := Run(c, s, fates, published);
            && !e.failed && e.published == published + Confirmed(fates, |batch|) && e.system.outbox.relay.Idle?
            && AllSettled(c, s.outbox.rows, e.system.outbox.rows, batch, fates)
    decreases |batch|
  {
    if batch == [] {
      RunEnds(c, s, fates, published);
    } else {
      var rest := batch[1..];
      hide Run, IsSettled, UpToDate, AllSettled, Untouched, OnlyBrokerRefuses;
      var t := FirstMessage(c, s, batch, fates, published);
      CycleHandlesItsBatch(c, t, rest, fates[3..], if fates[1].x.outcome.Succeeds? then published + 1 else published);
      SettledInTurn(c, s.outbox.rows, t.outbox.rows, Run(c, s, fates, published).system.outbox.rows, batch, fates);
    }
  }

  /** The cycle with the first message of its batch behind it. */
  lemma {:induction false} FirstMessage(c: Config, s: System, batch: seq<Due>, fates: seq<Fate>, published: nat)
    returns (t: System)
    requires batch != [] && s.outbox.relay == Next(batch) && UpToDate(s.outbox.rows, batch) && OnlyBrokerRefuses(fates)
    ensures Run(c, s, fates, published)
            == Run(c, t, fates[3..], if fates[1].x.outcome.Succeeds? then published + 1 else published)
    ensures t.outbox.relay == Next(batch[1..]) && UpToDate(t.outbox.rows, batch[1..])
    ensures var first, rows := batch[0].envelope.id, s.outbox.rows;
            && first in rows && IsSettled(c, rows, t.outbox.rows, first, fates[1].x.outcome, fates[2].x.clock)
            && forall id :: id != first ==> Untouched(rows, t.outbox.rows, id)
  {
    BatchOfNext(batch);
    hide Run, Relay, Batch, IsSettled, UpToDate, Untouched;
    t := Relay(c, Relay(c, Relay(c, s, fates[0].x), fates[1].x), fates[2].x);
    RunOfMessage(c, s, fates, published);
    MessageIsSettled(c, s, fates);
    InHand(s.outbox.rows, s.outbox.relay);
    RestStaysUntouched(s.outbox.rows, t.outbox.rows, batch[0].envelope.id, batch[1..]);
  }

  lemma {:induction false} RestStaysUntouched(before: map<Uuid, Row>, after: map<Uuid, Row>, id: Uuid, rest: seq<Due>)
    requires UpToDate(before, rest) && forall i :: 0 <= i < |rest| ==> rest[i].envelope.id != id
    requires forall other :: other != id ==> Untouched(before, after, other)
    ensures UpToDate(after, rest)
  {
    hide UpToDate;
    forall other | other in before && other != id ensures other in after && after[other] == before[other] {
      assert Untouched(before, after, other);
    }
    RestStays(before, after, id, rest);
  }

  lemma {:induction false} SettledInTurn(
    c: Config, before: map<Uuid, Row>, mid: map<Uuid, Row>, after: map<Uuid, Row>, batch: seq<Due>, fates: seq<Fate>)
    requires batch != [] && UpToDate(before, batch) && |fates| >= 3
    requires var first := batch[0].envelope.id;
             && first in before && IsSettled(c, before, mid, first, fates[1].x.outcome, fates[2].x.clock)
             && forall id :: id != first ==> Untouched(before, mid, id)
    requires AllSettled(c, mid, after, batch[1..], fates[3..])
    ensures AllSettled(c, before, after, batch, fates)
  {
    hide IsSettled, Untouched;
    var rest, left := batch[1..], fates[3..];
    var first := batch[0].envelope.id;
    assert forall i :: 0 < i < |batch| ==> batch[i] == rest[i - 1];
    assert NotIn(rest, first);
    SettledStays(c, before, mid, after, first, fates[1].x.outcome, fates[2].x.clock);
    forall i | 0 <= i < |batch|
      ensures batch[i].envelope.id in before
      ensures IsSettled(c, before, after, batch[i].envelope.id, fates[3 * i + 1].x.outcome, fates[3 * i + 2].x.clock)
    {
      if i > 0 {
        var id := rest[i - 1].envelope.id;
        assert left[3 * (i - 1) + 1] == fates[3 * i + 1] && left[3 * (i - 1) + 2] == fates[3 * i + 2];
        SettledSince(c, before, mid, after, id, fates[3 * i + 1].x.outcome, fates[3 * i + 2].x.clock);
      }
    }
    hide UpToDate;
    forall id | NotIn(batch, id) ensures Untouched(before, after, id) {
      assert NotIn(rest, id);
      UntouchedTwice(before, mid, after, id);
    }
  }

  lemma {:induction false} UntouchedTwice(a: map<Uuid, Row>, b: map<Uuid, Row>, c: map<Uuid, Row>, id: Uuid)
    requires Untouched(a, b, id) && Untouched(b, c, id)
    ensures Untouched(a, c, id)
  {
  }

  lemma {:induction false} SettledStays(
    c: Config, before: map<Uuid, Row>, mid: map<Uuid, Row>, after: map<Uuid, Row>, id: Uuid, publish: Outcome, time: int)
    requires id in before && IsSettled(c, before, mid, id, publish, time) && Untouched(mid, after, id)
    ensures IsSettled(c, before, after, id, publish, time)
  {
  }

  lemma {:induction false} SettledSince(
    c: Config, before: map<Uuid, Row>, mid: map<Uuid, Row>, after: map<Uuid, Row>, id: Uuid, publish: Outcome, time: int)
    requires id in mid && Untouched(before, mid, id) && IsSettled(c, mid, after, id, publish, time)
    ensures id in before && IsSettled(c, before, after, id, publish, time)
  {
  }
}
