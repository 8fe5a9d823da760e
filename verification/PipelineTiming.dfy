/** When Basket's relay tries a message, how often it may hold a failure against it, and what stops it. */
module PipelineTiming {
  import opened Calls
  import opened Ids
  import opened Envelopes
  import opened Pipeline
  import opened PipelineInvariant
  import opened PipelineSteps
  import opened PipelineRuns
  import PipelineProgress

  // Not before its time.

  /** A checkout may be published as soon as it is committed. */
  lemma {:induction false} DueOnceCommitted(c: Config, s: System, handler: nat, x: Chance)
    requires handler in s.shop.handlers && s.shop.handlers[handler].cart.userName in s.shop.table && Effective(x.outcome)
    requires s.shop.handlers[handler].announcement.id !in s.outbox.rows
    ensures var e := s.shop.handlers[handler].announcement;
            var rows := Step(c, s, CommitCheckout(handler, x)).outbox.rows;
            && rows.Keys == s.outbox.rows.Keys + {e.id} && rows[e.id].envelope == e
            && rows[e.id].attempts == 0 && !rows[e.id].poisoned && rows[e.id].nextAttempt == x.clock
  {
  }

  /** The row waits, out of the relay's hands. */
  ghost predicate Rests(o: Outbox, id: Uuid, row: Row, count: nat) {
    && id in o.rows && o.rows[id] == row && SentCount(o.sent, id) == count
    && forall d :: d in Batch(o.relay) ==> d.envelope.id != id
  }

  predicate OnlyEarlierReads(events: seq<Event>, time: int) {
    forall i :: 0 <= i < |events| && events[i].ReadDue? ==> events[i].clock < time
  }

  lemma {:induction false} RestsThroughCall(c: Config, o: Outbox, x: Chance, id: Uuid, row: Row, count: nat)
    requires Rests(o, id, row, count)
    ensures Rests(CallStore(c, o, x), id, row, count)
  {
    if !o.relay.Idle? { assert Batch(o.relay)[0] == o.relay.now && Batch(o.relay)[1..] == o.relay.rest; }
    CallStoreIsLocal(c, o, x, id);
    if !o.relay.Idle? { SentCountOfAppend(o.sent, o.relay.now.envelope, id); }
    BatchOfCall(c, o, x);
    hide SentCount, CallStore, Batch;
  }

  /** A call leaves in hand only what was there. */
  lemma {:induction false} BatchOfCall(c: Config, o: Outbox, x: Chance)
    ensures forall d :: d in Batch(CallStore(c, o, x).relay) ==> d in Batch(o.relay)
  {
    if !o.relay.Idle? { assert Batch(o.relay)[1..] == o.relay.rest; }
    var t := CallStore(c, o, x).relay;
    if !t.Idle? { assert Batch(t)[1..] == t.rest; }
  }

  lemma {:induction false} RestsThroughBatch(o: Outbox, limit: int, clock: int, batch: seq<Due>, id: Uuid, row: Row, count: nat)
    requires Rests(o, id, row, count) && clock < row.nextAttempt && IsDue(o.rows, limit, clock, batch)
    ensures Rests(o.(relay := Next(batch)), id, row, count)
  {
    hide SentCount;
    DueIsOldestDue(o.rows, limit, clock, batch);
    hide IsDue;
    assert Batch(Next(batch)) == batch;
  }

  lemma {:induction false} ReadStep(c: Config, s: System, clock: int, batch: seq<Due>)
    ensures var o, t := s.outbox, Step(c, s, ReadDue(clock, batch)).outbox;
            t == o || (IsDue(o.rows, c.batchSize, clock, batch) && t == o.(relay := Next(batch)))
  {
    hide IsDue, Next;
  }

  lemma {:induction false} RestsThroughQuiet(o: Outbox, id: Uuid, row: Row, count: nat)
    requires Rests(o, id, row, count)
    ensures forall e, clock :: Rests(o.(rows := Record(o.rows, e, clock)), id, row, count)
    ensures Rests(Stopped(o), id, row, count)
  {
    hide SentCount;
    if !o.relay.Idle? { assert Batch(o.relay)[0] == o.relay.now; }
    QuietStepsAreLocal(o, id);
  }

  lemma {:induction false} RestsThroughStep(c: Config, s: System, e: Event, id: Uuid, row: Row, count: nat)
    requires Rests(s.outbox, id, row, count) && (e.ReadDue? ==> e.clock < row.nextAttempt)
    ensures Rests(Step(c, s, e).outbox, id, row, count)
  {
    OutboxOfStep(c, s, e);
    RestsThroughQuiet(s.outbox, id, row, count);
    hide Step, Next, Record, Stopped, Rests;
    if e.CallRelay? { RestsThroughCall(c, s.outbox, e.x, id, row, count); }
    hide CallStore;
    if e.ReadDue? {
      ReadStep(c, s, e.clock, e.batch);
      hide IsDue;
      if IsDue(s.outbox.rows, c.batchSize, e.clock, e.batch) {
        RestsThroughBatch(s.outbox, c.batchSize, e.clock, e.batch, id, row, count);
      }
    }
  }

  lemma {:induction false} RestsFrom(c: Config, s: System, events: seq<Event>, id: Uuid, row: Row, count: nat)
    requires Rests(s.outbox, id, row, count) && OnlyEarlierReads(events, row.nextAttempt)
    ensures Rests(StepAll(c, s, events).outbox, id, row, count)
    decreases |events|
  {
    if |events| != 0 {
      RestsThroughStep(c, s, events[0], id, row, count);
      hide Rests, Step;
      RestsFrom(c, Step(c, s, events[0]), events[1..], id, row, count);
    }
  }

  lemma {:induction false} FailedRests(c: Config, s: System, x: Chance, id: Uuid)
    requires Invariant(c, s) && s.outbox.relay.Failing? && s.outbox.relay.now.envelope.id == id && Effective(x.outcome)
    ensures id in s.outbox.rows
    ensures var o := CallStore(c, s.outbox, x);
            && id in o.rows && o.rows[id].nextAttempt == x.clock && o.rows[id].attempts == s.outbox.rows[id].attempts + 1
            && o.sent == s.outbox.sent
            && Rests(o, id, o.rows[id], SentCount(o.sent, id))
  {
    hide ShopOk, RowsOk, QueueOk, ErrorsOk, OrdersOk, CountsOk, StageOk, NothingLost, Tallied, UpToDate, SentCount;
    InHand(s.outbox.rows, s.outbox.relay);
    BatchOfNext(s.outbox.relay.rest);
  }

  /** A refused message is left alone until its time: after a failure that was recorded with a next attempt at t,
   *  no number of reads before t puts the message in the relay's hands, and it is not sent. */
  lemma {:induction false} NotTriedBeforeItsTime(
    c: Config, s: System, before: seq<Event>, x: Chance, after: seq<Event>, id: Uuid)
    requires Fresh(s)
    requires var relay := StepAll(c, s, before).outbox.relay; relay.Failing? && relay.now.envelope.id == id
    requires Effective(x.outcome) && OnlyEarlierReads(after, x.clock)
    ensures var u := StepAll(c, s, before).outbox;
            var t := StepAll(c, Step(c, StepAll(c, s, before), CallRelay(x)), after).outbox;
            && id in u.rows && id in t.rows
            && t.rows[id].nextAttempt == x.clock && t.rows[id].attempts == u.rows[id].attempts + 1
            && (forall d :: d in Batch(t.relay) ==> d.envelope.id != id)
            && SentCount(t.sent, id) == SentCount(u.sent, id)
  {
    hide StepAll, Step, Invariant, CallStore, SentCount, Fresh, OnlyEarlierReads;
    ReachableKeeps(c, s, before);
    var u := StepAll(c, s, before);
    var v := Step(c, u, CallRelay(x));
    PipelineProgress.RelayStep(c, u, x);
    FailedRests(c, u, x, id);
    RestsFrom(c, v, after, id, v.outbox.rows[id], SentCount(v.outbox.sent, id));
  }

  // Only refusals count.

  /** A publish the broker refused: one that failed without being told to stop. */
  function Refused(o: Outbox, e: Event, id: Uuid): nat {
    if e.CallRelay? && o.relay.Publishing? && o.relay.now.envelope.id == id && e.x.outcome.Fails? && !e.x.outcome.cancelled
    then 1 else 0
  }

  ghost function AllRefused(c: Config, s: System, events: seq<Event>, id: Uuid): nat
    decreases |events|
  {
    if |events| == 0 then 0
    else Refused(s.outbox, events[0], id) + AllRefused(c, Step(c, s, events[0]), events[1..], id)
  }

  function RefusalsOf(o: Outbox, id: Uuid): nat {
    if id in o.rows then o.rows[id].refusals else 0
  }

  lemma {:induction false} RefusalsOfCall(c: Config, o: Outbox, x: Chance, id: Uuid)
    ensures RefusalsOf(CallStore(c, o, x), id) <= RefusalsOf(o, id) + Refused(o, CallRelay(x), id)
  {
  }

  lemma {:induction false} RefusalsOfStep(c: Config, s: System, e: Event, id: Uuid)
    ensures RefusalsOf(Step(c, s, e).outbox, id) <= RefusalsOf(s.outbox, id) + Refused(s.outbox, e, id)
  {
    if e.CallRelay? {
      PipelineProgress.RelayStep(c, s, e.x);
      RefusalsOfCall(c, s.outbox, e.x, id);
      hide CallStore, Step, Refused;
    } else {
      OutboxOfStep(c, s, e);
      hide Step, Next, CallStore;
    }
  }

  lemma {:induction false} RefusalsOfRun(c: Config, s: System, events: seq<Event>, id: Uuid)
    ensures RefusalsOf(StepAll(c, s, events).outbox, id) <= RefusalsOf(s.outbox, id) + AllRefused(c, s, events, id)
    decreases |events|
  {
    if |events| != 0 {
      RefusalsOfStep(c, s, events[0], id);
      hide Step, RefusalsOf, Refused;
      RefusalsOfRun(c, Step(c, s, events[0]), events[1..], id);
    }
  }

  /** Over every run: a row never has more attempts than the broker refused its message, and one that was given up
   *  on was refused at least as often as the configuration asks. A publish that was cancelled or ran out of time
   *  is not held against its message. */
  lemma {:induction false} OnlyRefusalsCount(c: Config, s: System, events: seq<Event>, id: Uuid)
    requires Fresh(s) && id in StepAll(c, s, events).outbox.rows
    ensures var row := StepAll(c, s, events).outbox.rows[id];
            && row.attempts <= AllRefused(c, s, events, id)
            && (row.poisoned ==> AllRefused(c, s, events, id) >= Cap(c))
  {
    hide StepAll, AllRefused, Pending;
    RelayBooksAddUp(c, s, events, id);
    RefusalsOfRun(c, s, events, id);
  }

  // What stops the relay.

  /** A poll that was told to stop, a publish that was cancelled, or a call to the database that failed: anything
   *  but a refusal by the broker. */
  predicate TellsToStop(o: Outbox, x: Chance) {
    x.outcome.Fails? && !o.relay.Idle? && (o.relay.Publishing? ==> x.outcome.cancelled)
  }

  lemma {:induction false} IdleStaysIdle(c: Config, s: System, events: seq<Event>)
    requires s.outbox.relay.Idle? && forall i :: 0 <= i < |events| ==> !events[i].ReadDue?
    ensures var t := StepAll(c, s, events).outbox; t.relay.Idle? && t.sent == s.outbox.sent
    decreases |events|
  {
    if |events| != 0 {
      OutboxOfStep(c, s, events[0]);
      hide Step, Record, Next;
      IdleStaysIdle(c, Step(c, s, events[0]), events[1..]);
    }
  }

  /** A stop or an error ends the cycle: until the next read nothing more is sent. After a stop the message in hand
   *  keeps its row as it is; only a cancelled publish may itself have reached the broker. */
  lemma {:induction false} AStopEndsTheCycle(c: Config, s: System, x: Chance, after: seq<Event>)
    requires TellsToStop(s.outbox, x) && forall i :: 0 <= i < |after| ==> !after[i].ReadDue?
    ensures var u := Step(c, s, CallRelay(x));
            var t := StepAll(c, u, after).outbox;
            && (s.outbox.relay.Polling? || s.outbox.relay.Publishing? ==> u.outbox.rows == s.outbox.rows) && t.relay.Idle?
            && t.sent == u.outbox.sent
            && u.outbox.sent == if s.outbox.relay.Publishing? && Effective(x.outcome)
                                then s.outbox.sent + [s.outbox.relay.now.envelope] else s.outbox.sent
  {
    var u := Step(c, s, CallRelay(x));
    assert u.outbox.relay.Idle?;
    hide Step;
    IdleStaysIdle(c, u, after);
  }
}
