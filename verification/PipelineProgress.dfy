/** How long Basket's relay can be held up by one message. */
module PipelineProgress {
  import opened Calls
  import opened Ids
  import opened Envelopes
  import opened Pipeline
  import opened PipelineInvariant
  import opened PipelineSteps
  import opened PipelineRuns
  import CheckoutRelay

  /** A call that settles one try of the message: it is deleted after it was sent, or its refusal is written down. */
  function Settled(o: Outbox, e: Event, id: Uuid): nat {
    if e.CallRelay? && (o.relay.Deleting? || o.relay.Failing? || o.relay.Poisoning?) && o.relay.now.envelope.id == id
       && Effective(e.x.outcome)
    then 1 else 0
  }

  /** How many of its tries a run settles. */
  ghost function AllSettled(c: Config, s: System, events: seq<Event>, id: Uuid): nat
    decreases |events|
  {
    if |events| == 0 then 0
    else Settled(s.outbox, events[0], id) + AllSettled(c, Step(c, s, events[0]), events[1..], id)
  }

  predicate Waits(o: Outbox, id: Uuid) {
    id in o.rows && !o.rows[id].poisoned
  }

  lemma {:induction false} SettlingCounts(c: Config, o: Outbox, x: Chance, id: Uuid)
    requires BooksOk(c, o) && Waits(o, id) && Waits(CallStore(c, o, x), id)
    ensures CallStore(c, o, x).rows[id].attempts == o.rows[id].attempts + Settled(o, CallRelay(x), id)
  {
    hide Tallied, UpToDate;
  }

  lemma {:induction false} RelayStep(c: Config, s: System, x: Chance)
    ensures Step(c, s, CallRelay(x)).outbox == CallStore(c, s.outbox, x)
  {
    hide CallStore, OnWire;
  }

  /** While the row waits, its attempts are the tries that were settled. */
  lemma {:induction false} StepSettles(c: Config, s: System, e: Event, id: Uuid)
    requires Invariant(c, s) && Waits(s.outbox, id) && Waits(Step(c, s, e).outbox, id)
    ensures Step(c, s, e).outbox.rows[id].attempts == s.outbox.rows[id].attempts + Settled(s.outbox, e, id)
  {
    hide ShopOk, RowsOk, QueueOk, ErrorsOk, OrdersOk, CountsOk, StageOk, NothingLost, Tallied, UpToDate;
    if e.CallRelay? {
      SettlingCounts(c, s.outbox, e.x, id);
      RelayStep(c, s, e.x);
      hide BooksOk, Step, CallStore, Settled, Waits;
    } else {
      OutboxOfStep(c, s, e);
      hide BooksOk, Step, Next, CallStore;
    }
  }

  /** The row has been poisoned, or it has left the table for the broker. */
  ghost predicate IsDone(o: Outbox, id: Uuid) {
    !Waits(o, id) && (id in o.rows || id in o.accepted)
  }

  lemma {:induction false} AttemptsAreBounded(c: Config, s: System, id: Uuid)
    requires Invariant(c, s) && Waits(s.outbox, id)
    ensures s.outbox.rows[id].attempts < Cap(c)
  {
    assert RowTallied(c, s.outbox.rows[id], Pending(s.outbox.relay, id)) by {
      hide ShopOk, RowsOk, QueueOk, ErrorsOk, OrdersOk, CountsOk, StageOk, NothingLost, UpToDate, Pending;
    }
    hide Invariant, Pending;
  }

  lemma {:induction false} AfterOneStep(c: Config, u: System, after: seq<Event>, m: nat)
    requires m < |after|
    ensures StepAll(c, u, after[..m + 1]) == StepAll(c, Step(c, u, after[0]), after[1..][..m])
  {
    hide Step;
    assert after[..m + 1][0] == after[0] && after[..m + 1][1..] == after[1..][..m];
  }

  lemma {:induction false} WaitingIsBounded(c: Config, u: System, after: seq<Event>, id: Uuid) returns (n: nat)
    requires Invariant(c, u) && Waits(u.outbox, id)
    requires AllSettled(c, u, after, id) >= Cap(c) - u.outbox.rows[id].attempts
    ensures n <= |after| && IsDone(StepAll(c, u, after[..n]).outbox, id)
    decreases |after|
  {
    hide Invariant, Step, StepAll, Settled, Cap;
    AttemptsAreBounded(c, u, id);
    var t := Step(c, u, after[0]);
    RowsLeaveByStep(c, u, after[0], id);
    if Waits(t.outbox, id) {
      StepSettles(c, u, after[0], id);
      StepKeeps(c, u, after[0]);
      hide Waits;
      var m := WaitingIsBounded(c, t, after[1..], id);
      n := m + 1;
      AfterOneStep(c, u, after, m);
    } else {
      n := 1;
      AfterOneStep(c, u, after, 0);
      assert StepAll(c, t, after[1..][..0]) == t by { EmptyRun(c, t, after[1..][..0]); }
    }
  }

  lemma {:induction false} EmptyRun(c: Config, s: System, events: seq<Event>)
    requires |events| == 0
    ensures StepAll(c, s, events) == s
  {
  }

  /** A row is not tried for ever: in a run that settles as many of its tries as the configuration has left for
   *  it, the row is poisoned on the way or leaves the table, and by the end it is still poisoned or was accepted. */
  lemma {:induction false} RowIsDoneWithinItsAttempts(c: Config, s: System, before: seq<Event>, after: seq<Event>, id: Uuid)
    requires Fresh(s)
    requires var u := StepAll(c, s, before);
             Waits(u.outbox, id) && AllSettled(c, u, after, id) >= Cap(c) - u.outbox.rows[id].attempts
    ensures var u := StepAll(c, s, before);
            var t := StepAll(c, u, after);
            && (exists n :: 0 <= n <= |after| && IsDone(StepAll(c, u, after[..n]).outbox, id))
            && (id in t.outbox.accepted || (id in t.outbox.rows && t.outbox.rows[id].poisoned))
  {
    hide Step, StepAll, Invariant, Fresh, AllSettled, SentCount;
    var u := StepAll(c, s, before);
    ReachableKeeps(c, s, before);
    var n := WaitingIsBounded(c, u, after, id);
    var v := StepAll(c, u, after[..n]);
    assert after == after[..n] + after[n..];
    StepAllOfConcat(c, u, after[..n], after[n..]);
    RunKeeps(c, u, after[..n]);
    if id in v.outbox.accepted {
      AcceptedStays(c, v, after[n..], id);
    } else {
      PoisonedFrom(c, v, after[n..], id, v.outbox.rows[id], SentCount(v.outbox.sent, id));
    }
  }

  lemma {:induction false} AcceptedStays(c: Config, u: System, after: seq<Event>, id: Uuid)
    requires Invariant(c, u) && id in u.outbox.accepted
    ensures id in StepAll(c, u, after).outbox.accepted
    decreases |after|
  {
    if |after| != 0 {
      var t := Step(c, u, after[0]);
      assert id in t.outbox.accepted by {
        OutboxOfStep(c, u, after[0]);
        CallStoreOutbox(c, u, after[0]);
        hide Invariant, Step, CallStore, Next, Stopped;
      }
      StepKeeps(c, u, after[0]);
      hide Invariant, Step;
      AcceptedStays(c, t, after[1..], id);
    }
  }

  // What settles a try.

  predicate Quiet(events: seq<Event>) {
    forall i :: 0 <= i < |events| ==> !CheckoutRelay.OfRelay(events[i])
  }

  lemma {:induction false} QuietKeepsRelay(c: Config, s: System, events: seq<Event>, more: seq<Event>, id: Uuid)
    requires Quiet(events)
    ensures StepAll(c, s, events).outbox.relay == s.outbox.relay
    ensures AllSettled(c, s, events + more, id) == AllSettled(c, StepAll(c, s, events), more, id)
    decreases |events|
  {
    if |events| == 0 {
      assert events + more == more;
    } else {
      var t := Step(c, s, events[0]);
      OutboxOfStep(c, s, events[0]);
      hide Step;
      assert (events + more)[0] == events[0] && (events + more)[1..] == events[1..] + more;
      QuietKeepsRelay(c, t, events[1..], more, id);
    }
  }

  /** The three calls the relay makes for a message in its batch settle one try, whatever others do in between:
   *  unless it is told to stop or the last call is lost. */
  lemma {:induction false} TryIsSettled(c: Config, s: System, x: Chance, m: seq<Event>, y: Chance, n: seq<Event>, z: Chance)
    requires s.outbox.relay.Polling? && Quiet(m) && Quiet(n)
    requires x.outcome.Succeeds? && (y.outcome.Fails? ==> !y.outcome.cancelled) && Effective(z.outcome)
    ensures AllSettled(c, s, [CallRelay(x)] + (m + ([CallRelay(y)] + (n + [CallRelay(z)]))), s.outbox.relay.now.envelope.id) == 1
  {
    var id := s.outbox.relay.now.envelope.id;
    var polled := Step(c, s, CallRelay(x));
    var u := StepAll(c, polled, m);
    var sent := Step(c, u, CallRelay(y));
    var v := StepAll(c, sent, n);
    var tail := [CallRelay(y)] + (n + [CallRelay(z)]);
    assert polled.outbox.relay == Publishing(s.outbox.relay.now, s.outbox.relay.rest);
    QuietKeepsRelay(c, polled, m, tail, id);
    assert sent.outbox.relay.Deleting? || sent.outbox.relay.Failing? || sent.outbox.relay.Poisoning?;
    assert sent.outbox.relay.now.envelope.id == id;
    hide Step, StepAll, Quiet;
    QuietKeepsRelay(c, sent, n, [CallRelay(z)], id);
    assert ([CallRelay(x)] + (m + tail))[1..] == m + tail;
    assert tail[1..] == n + [CallRelay(z)] && tail[0] == CallRelay(y);
    assert Settled(v.outbox, CallRelay(z), id) == 1;
    assert [CallRelay(z)][1..] == [];
  }

  predicate IsOldest(rows: map<Uuid, Row>, clock: int, id: Uuid) {
    && id in rows && !rows[id].poisoned && rows[id].nextAttempt <= clock
    && forall other :: other in rows && other != id && !rows[other].poisoned && rows[other].nextAttempt <= clock ==>
         OldestFirst(rows[id].envelope, rows[other].envelope)
  }

  lemma {:induction false} OldestComesFirst(rows: map<Uuid, Row>, limit: int, clock: int, batch: seq<Due>, id: Uuid)
    requires limit > 0 && IsDue(rows, limit, clock, batch) && IsOldest(rows, clock, id)
    requires forall k :: k in rows ==> rows[k].envelope.id == k
    ensures |batch| > 0 && batch[0].envelope.id == id
  {
    DueIsOldestDue(rows, limit, clock, batch);
    hide IsDue;
    var mine := Due(rows[id].envelope, rows[id].attempts);
    if mine in batch {
      var i :| 0 <= i < |batch| && batch[i] == mine;
      assert i != 0 ==> OldestFirst(batch[0].envelope, mine.envelope);
    } else {
      assert OldestFirst(batch[0].envelope, rows[id].envelope);
    }
  }

  lemma {:induction false} RowsAreKeyed(c: Config, s: System)
    requires Invariant(c, s)
    ensures forall id :: id in s.outbox.rows ==> s.outbox.rows[id].envelope.id == id
  {
    hide ShopOk, RowsOk, QueueOk, ErrorsOk, OrdersOk, CountsOk, StageOk, NothingLost, UpToDate, Tallied;
  }

  lemma {:induction false} ReadMoves(c: Config, s: System, clock: int, batch: seq<Due>)
    requires s.outbox.relay.Idle? && IsDue(s.outbox.rows, c.batchSize, clock, batch)
    ensures Step(c, s, ReadDue(clock, batch)).outbox.relay == Next(batch)
  {
    hide IsDue, Next;
  }

  /** In every reachable state the relay's next read begins with the ready row that no ready row is before: an old
   *  row is not passed over for newer ones. */
  lemma {:induction false} OldestIsTriedFirst(c: Config, s: System, events: seq<Event>, clock: int, batch: seq<Due>, id: Uuid)
    requires Fresh(s) && c.batchSize > 0
    requires var o := StepAll(c, s, events).outbox;
             o.relay.Idle? && IsDue(o.rows, c.batchSize, clock, batch) && IsOldest(o.rows, clock, id)
    ensures var relay := Step(c, StepAll(c, s, events), ReadDue(clock, batch)).outbox.relay;
            relay.Polling? && relay.now.envelope.id == id
  {
    hide Fresh, Step, StepAll, Invariant, IsDue, IsOldest;
    ReachableKeeps(c, s, events);
    var t := StepAll(c, s, events);
    RowsAreKeyed(c, t);
    OldestComesFirst(t.outbox.rows, c.batchSize, clock, batch, id);
    ReadMoves(c, t, clock, batch);
  }
}
