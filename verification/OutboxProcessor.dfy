/** The outbox worker as it runs: loops over groups and messages, stores written one call at a time.
 *  Every method is tied to the function of OutboxServices, OutboxReader or OutboxWorker it carries out.
 */
module OutboxProcessor {
  import opened Calls
  import opened ChangeCapture
  import Spec = OutboxServices
  import opened OutboxServices
  import opened OutboxReader
  import opened OutboxWorker

  /** The database and the broker behind the worker's stores. */
  class Services {
    var capture: Capture
    var checkpoint: Position
    ghost var origin: Position
    var failures: map<MessageId, Failure>
    var sent: seq<Envelope>
    ghost var accepted: multiset<Envelope>
    ghost var heard: Heard
    var script: seq<Fate>

    ghost function Now(): World
      reads this
    {
      World(capture, checkpoint, origin, failures, sent, accepted, heard, script)
    }

    /** Time passes until the next call is decided. */
    method Wait() returns (outcome: Outcome)
      modifies this
      ensures Attempt(Now(), outcome) == Await(old(Now()))
    {
      if script == [] {
        return Fails(false, false);
      }
      outcome := script[0].outcome;
      capture, script := Evolve(capture, script[0].changes), script[1..];
    }

    /** One more write or message. */
    ghost method Count()
      modifies this`heard
      ensures Now() == Counted(old(Now()))
    {
      heard := Counted(Now()).heard;
    }

    /** Asks whether to stop. */
    method Poll() returns (goesOn: bool)
      modifies this
      ensures Now() == Spec.Poll(old(Now())).world && goesOn == Spec.Poll(old(Now())).outcome.Succeeds?
    {
      var o := Wait();
      goesOn := o.Succeeds?;
      heard := Told(heard, !goesOn);
    }

    method Load() returns (lsn: Option<Position>)
      modifies this
      ensures Reply(Now(), lsn) == Spec.Load(old(Now()))
    {
      var o := Wait();
      lsn := if o.Succeeds? then Some(checkpoint) else None;
    }

    method Save(lsn: Position, ghost floor: Position) returns (done: Option<()>)
      modifies this
      ensures Reply(Now(), done) == Spec.Save(old(Now()), lsn, floor)
    {
      if lsn == 0 {
        return None;
      }
      Count();
      var o := Wait();
      if Effective(o) {
        origin := if checkpoint == 0 then floor else origin;
        checkpoint := lsn;
      }
      done := if o.Succeeds? then Some(()) else None;
    }

    method Get(id: MessageId) returns (failure: Option<Failure>)
      modifies this
      ensures Reply(Now(), failure) == Spec.Get(old(Now()), id)
    {
      var o := Wait();
      failure := if o.Succeeds? then Some(Recorded(failures, id)) else None;
    }

    method RecordFailure(id: MessageId) returns (attempts: Option<nat>)
      modifies this
      ensures Reply(Now(), attempts) == Spec.RecordFailure(old(Now()), id)
    {
      Count();
      var o := Wait();
      var before := Recorded(failures, id);
      if Effective(o) {
        failures := failures[id := Failure(before.attempts + 1, before.poisoned)];
      }
      attempts := if o.Succeeds? then Some(before.attempts + 1) else None;
    }

    method MarkPoisoned(id: MessageId) returns (done: Option<()>)
      modifies this
      ensures Reply(Now(), done) == Spec.MarkPoisoned(old(Now()), id)
    {
      Count();
      var o := Wait();
      if Effective(o) && id in failures {
        failures := failures[id := Failure(failures[id].attempts, true)];
      }
      done := if o.Succeeds? then Some(()) else None;
    }

    method Publish(message: Envelope) returns (outcome: Outcome)
      modifies this
      ensures Attempt(Now(), outcome) == Spec.Publish(old(Now()), message)
    {
      ghost var crashed := script == [];
      Count();
      outcome := Wait();
      if Effective(outcome) {
        sent := sent + [message];
      }
      accepted := if outcome.Succeeds? then accepted + multiset{message} else accepted;
      heard := if crashed then heard else Answered(heard, message.id, outcome);
    }

    method Bounds(after: Position) returns (bounds: Option<Bounds>)
      modifies this
      ensures Reply(Now(), bounds) == ReadBounds(old(Now()), after)
    {
      var o := Wait();
      var next := if after == 0 then 0 else after + 1;
      bounds := if o.Succeeds? then Some(Spec.Bounds(capture.floor, capture.top, next)) else None;
    }

    method Changes(from: Position, to: Position, limit: nat) returns (rows: Option<seq<Row>>)
      modifies this
      ensures Reply(Now(), rows) == Spec.Changes(old(Now()), from, to, limit)
    {
      var o := Wait();
      if from < capture.floor || !o.Succeeds? {
        return None;
      }
      var all := Between(capture.log, from, to);
      rows := Some(if 0 < limit < |all| then all[..limit] else all);
    }
  }

  /** Collects consecutive rows that share a transaction. */
  method GroupByLsn(rows: seq<Row>) returns (groups: seq<Group>)
    ensures groups == GroupsOf(rows)
    ensures RowsIn(groups) == rows
  {
    groups := [];
    assert GroupsOf([]) == [];
    hide GroupsOf, RowsIn;
    for i := 0 to |rows|
      invariant groups == GroupsOf(rows[..i])
    {
      GroupsOfAppend(rows[..i], rows[i]);
      assert rows[..i] + [rows[i]] == rows[..i + 1];
      var last := |groups| - 1;
      if last >= 0 && groups[last].lsn == rows[i].lsn {
        groups := groups[last := Group(rows[i].lsn, groups[last].messages + [rows[i].message])];
      } else {
        groups := groups + [Group(rows[i].lsn, [rows[i].message])];
      }
    }
    assert rows[..|rows|] == rows;
    GroupsKeepRows(rows);
  }

  /** Drops the rows of one transaction. */
  method DropPosition(rows: seq<Row>, lsn: Position) returns (kept: seq<Row>)
    ensures kept == Without(rows, lsn)
  {
    kept := [];
    for i := 0 to |rows|
      invariant kept == Without(rows[..i], lsn)
    {
      assert rows[..i + 1][..i] == rows[..i];
      if rows[i].lsn != lsn {
        kept := kept + [rows[i]];
      }
    }
    assert rows[..|rows|] == rows;
  }

  class Processor {
    const services: Services
    const options: Options

    constructor (services: Services, options: Options)
      ensures this.services == services && this.options == options
    {
      this.services := services;
      this.options := options;
    }

    method Read(after: Position, batchSize: int) returns (r: ReadResult)
      modifies services
      ensures (services.Now(), r) == ReadBatch(old(services.Now()), after, batchSize)
    {
      hide GroupsOf, RowsIn, Without, Spec.Changes, ReadBounds;
      if batchSize <= 0 {
        return Unreadable;
      }
      var bounds := services.Bounds(after);
      if bounds.None? {
        return Unreadable;
      }
      var Bounds(floor, top, next) := bounds.value;
      if top == 0 || floor == 0 {
        return NotReady;
      }
      if after != 0 && next < floor {
        return Expired(after, floor);
      }
      var from := if after == 0 then floor else next;
      if from > top {
        return Batch([], floor);
      }
      var changes := services.Changes(from, top, batchSize + 1);
      if changes.None? {
        return Unreadable;
      }
      var rows := changes.value;
      if |rows| > batchSize {
        var last := rows[|rows| - 1].lsn;
        rows := DropPosition(rows, last);
        if rows == [] {
          changes := services.Changes(last, last, 0);
          if changes.None? {
            return Unreadable;
          }
          rows := changes.value;
        }
      }
      var groups := GroupByLsn(rows);
      return Batch(groups, floor);
    }

    /** One cycle: read a batch, publish it in order, save the position after each group. */
    method ProcessOnce() returns (result: Result, failed: bool)
      modifies services
      ensures var p := Cycle(old(services.Now()), options);
              services.Now() == p.world && result == p.result && failed == p.verdict.Breaks?
    {
      hide ReadBatch, PublishOne, Spec.Poll, Spec.Save;
      result := Result(Idle, 0, 0);
      var max := options.maxPublishAttempts;
      var checkpoint := services.Load();
      if checkpoint.None? {
        return result, true;
      }
      var batch := Read(checkpoint.value, options.batchSize);
      if !batch.Batch? {
        return result, true;
      }
      var groups := batch.groups;
      if groups == [] {
        return result, false;
      }
      result := Result(Processed, 0, 0);
      ghost var all := PublishGroups(services.Now(), groups, result, batch.floor, max);
      for g := 0 to |groups|
        invariant all == PublishGroups(services.Now(), groups[g..], result, batch.floor, max)
      {
        var messages := groups[g].messages;
        ghost var one := PublishGroup(services.Now(), messages, result, max);
        assert groups[g..][0] == groups[g] && groups[g..][1..] == groups[g + 1..];
        for m := 0 to |messages|
          invariant one == PublishGroup(services.Now(), messages[m..], result, max)
        {
          assert messages[m..][0] == messages[m] && messages[m..][1..] == messages[m + 1..];
          var goesOn := services.Poll();
          if !goesOn {
            return result, true;
          }
          var verdict;
          result, verdict := Publish(messages[m], result);
          if verdict.Breaks? {
            return result, true;
          }
          if verdict.Stops? {
            result := result.(status := Faulted);
            return result, false;
          }
        }
        var saved := services.Save(groups[g].lsn, batch.floor);
        if saved.None? {
          return result, true;
        }
      }
      failed := false;
    }

    method Publish(message: Envelope, before: Result) returns (result: Result, verdict: Verdict)
      modifies services
      ensures Progress(services.Now(), result, verdict)
              == PublishOne(old(services.Now()), message, before, options.maxPublishAttempts)
    {
      result := before;
      var failure := services.Get(message.id);
      if failure.None? {
        return result, Breaks;
      }
      if failure.value.poisoned {
        return result, Goes;
      }
      var outcome := services.Publish(message);
      if outcome.Fails? {
        if outcome.cancelled {
          return result, Breaks;
        }
        result, verdict := RecordFailure(message, result);
        return;
      }
      result := result.(published := result.published + 1);
      verdict := Goes;
    }

    method RecordFailure(message: Envelope, before: Result) returns (result: Result, verdict: Verdict)
      modifies services
      ensures Progress(services.Now(), result, verdict)
              == Refuse(old(services.Now()), message, before, options.maxPublishAttempts)
    {
      result := before;
      var attempts := services.RecordFailure(message.id);
      if attempts.None? {
        return result, Breaks;
      }
      if attempts.value >= options.maxPublishAttempts {
        var marked := services.MarkPoisoned(message.id);
        if marked.None? {
          return result, Breaks;
        }
        result := result.(poisoned := result.poisoned + 1);
        return result, Goes;
      }
      verdict := Stops;
    }
  }
}
