/** The outbox stream cannot be held up for ever: each refused cycle spends one of the attempts the
 *  messages of the next transaction have left, and those run out.
 */
module OutboxProgress {
  import opened Calls
  import opened ChangeCapture
  import opened OutboxServices
  import opened OutboxReader
  import opened OutboxWorker
  import opened OutboxRuns

  /** Attempts a message may still fail before the attempt that gives it up. */
  function Slack(w: World, id: MessageId, max: int): nat {
    var f := Recorded(w.failures, id);
    if f.poisoned || f.attempts >= max - 1 then 0 else max - 1 - f.attempts
  }

  function SlackOf(w: World, messages: seq<Envelope>, max: int): nat {
    if messages == [] then 0 else Slack(w, messages[0].id, max) + SlackOf(w, messages[1..], max)
  }

  /** How often a message may be refused before it is given up on, less the last time. */
  function Spare(max: int): nat {
    if max < 1 then 0 else max - 1
  }

  lemma {:induction false} SlackBound(w: World, messages: seq<Envelope>, max: int)
    ensures SlackOf(w, messages, max) <= |messages| * Spare(max)
  {
    if messages != [] {
      SlackBound(w, messages[1..], max);
      assert |messages| * Spare(max) == (|messages| - 1) * Spare(max) + Spare(max);
    }
  }

  lemma {:induction false} SlackShrinks(w: World, v: World, messages: seq<Envelope>, max: int)
    requires Later(w, v)
    ensures SlackOf(v, messages, max) <= SlackOf(w, messages, max)
  {
    if messages != [] {
      SlackShrinks(w, v, messages[1..], max);
      var id := messages[0].id;
      assert Poisoned(w, id) ==> Poisoned(v, id);
      assert Recorded(w.failures, id).attempts <= Recorded(v.failures, id).attempts;
    }
  }

  /** Refusing one of the messages without giving it up spends an attempt. */
  ghost predicate Spent(w: World, v: World, m: Envelope, max: int) {
    && !Poisoned(w, m.id)
    && Recorded(w.failures, m.id).attempts < Recorded(v.failures, m.id).attempts < max
  }

  lemma {:induction false} SpentShrinks(w: World, v: World, messages: seq<Envelope>, i: nat, max: int)
    requires Later(w, v) && i < |messages| && Spent(w, v, messages[i], max)
    ensures SlackOf(v, messages, max) < SlackOf(w, messages, max)
  {
    if i == 0 {
      SlackShrinks(w, v, messages[1..], max);
    } else {
      SpentShrinks(w, v, messages[1..], i - 1, max);
      var id := messages[0].id;
      assert Poisoned(w, id) ==> Poisoned(v, id);
      assert Recorded(w.failures, id).attempts <= Recorded(v.failures, id).attempts;
    }
  }

  lemma {:induction false} StopSpends(w: World, m: Envelope, r: Result, max: int)
    requires PublishOne(w, m, r, max).verdict.Stops?
    ensures Spent(w, PublishOne(w, m, r, max).world, m, max)
  {
  }

  lemma {:induction false} StoppedGroupBegins(w: World, messages: seq<Envelope>, r: Result, max: int)
    requires PublishGroup(w, messages, r, max).verdict.Stops?
    ensures messages != []
    ensures var p := PublishOne(Poll(w).world, messages[0], r, max);
            && (p.verdict.Goes? || p.verdict.Stops?)
            && PublishGroup(w, messages, r, max)
               == if p.verdict.Goes? then PublishGroup(p.world, messages[1..], p.result, max) else p
  {
    hide PublishOne, Poll;
  }

  lemma {:induction false} StoppedGroupSpends(w: World, messages: seq<Envelope>, r: Result, max: int) returns (i: nat)
    requires Consistent(w, max) && PublishGroup(w, messages, r, max).verdict.Stops?
    ensures i < |messages| && Spent(w, PublishGroup(w, messages, r, max).world, messages[i], max)
    decreases |messages|
  {
    hide PublishOne, PublishGroup, Consistent, Poll, Spent, Later;
    StoppedGroupBegins(w, messages, r, max);
    var s := Poll(w).world;
    PollIsLater(w, max);
    PublishOneKeeps(s, messages[0], r, max);
    var p := PublishOne(s, messages[0], r, max);
    if p.verdict.Stops? {
      i := 0;
      StopSpends(s, messages[0], r, max);
      SpentSince(w, s, p.world, messages[0], max);
    } else {
      i := StoppedGroupSpends(p.world, messages[1..], p.result, max);
      i := i + 1;
      LaterTransitively(w, s, p.world);
      SpentSince(w, p.world, PublishGroup(w, messages, r, max).world, messages[i], max);
    }
  }

  lemma {:induction false} SpentSince(u: World, v: World, w: World, m: Envelope, max: int)
    requires Later(u, v) && Spent(v, w, m, max)
    ensures Spent(u, w, m, max)
  {
    assert Poisoned(u, m.id) ==> Poisoned(v, m.id);
    assert Recorded(u.failures, m.id).attempts <= Recorded(v.failures, m.id).attempts;
  }

  // The next transaction.

  /** The messages of the transaction at a position. */
  function Transaction(c: Capture, lsn: Position): seq<Envelope> {
    MessagesOf(Between(c.log, lsn, lsn))
  }

  /** The transaction at lsn is the first one above the checkpoint. */
  ghost predicate IsNext(w: World, lsn: Position) {
    && w.checkpoint < lsn <= w.capture.top
    && Between(w.capture.log, lsn, lsn) != []
    && forall q :: 0 <= q < |w.capture.log| ==> w.capture.log[q].lsn <= w.checkpoint || lsn <= w.capture.log[q].lsn
  }

  lemma {:induction false} NextStays(w: World, v: World, lsn: Position)
    requires Later(w, v) && IsNext(w, lsn) && v.checkpoint == w.checkpoint
    ensures IsNext(v, lsn) && Transaction(v.capture, lsn) == Transaction(w.capture, lsn)
  {
    RangeIsStable(w.capture, v.capture, lsn, lsn);
    forall q | 0 <= q < |v.capture.log|
      ensures v.capture.log[q].lsn <= v.checkpoint || lsn <= v.capture.log[q].lsn
    {
      if q < |w.capture.log| { assert v.capture.log[q] == w.capture.log[q]; }
    }
  }

  lemma {:induction false} InBetween(rows: seq<Row>, from: Position, to: Position) returns (q: nat)
    requires Between(rows, from, to) != []
    ensures q < |rows| && from <= rows[q].lsn <= to
  {
    if from <= rows[0].lsn <= to {
      q := 0;
    } else {
      q := InBetween(rows[1..], from, to);
      q := q + 1;
    }
  }

  /** The batch after a saved checkpoint starts with the next transaction, whole. */
  lemma {:induction false} BatchStartsWithNext(c: Capture, groups: seq<Group>, at: nat, end: nat, lsn: Position)
    requires WellFormed(c) && OnLog(c.log, groups, at, end) && groups != []
    requires c.log[at].lsn == lsn && at < |c.log| && forall q :: 0 <= q < at ==> c.log[q].lsn < lsn
    ensures groups[0].lsn == lsn && groups[0].messages == Transaction(c, lsn)
  {
    OnLogHead(c.log, groups, at, end);
    var g := groups[0];
    var mid := at + |g.messages|;
    assert c.log[at] == c.log[at..mid][0];
    forall q | at <= q < mid ensures c.log[q].lsn == lsn {
      assert c.log[q] == c.log[at..mid][q - at];
    }
    BetweenOfStretches(c.log, lsn, lsn, at, mid);
    assert MessagesOf(RowsOf(lsn, g.messages)) == g.messages;
  }

  lemma {:induction false} FirstRowIsNext(w: World, at: nat, lsn: Position)
    requires WellFormed(w.capture) && IsNext(w, lsn) && at < |w.capture.log|
    requires w.checkpoint < w.capture.log[at].lsn
    requires forall q :: 0 <= q < at ==> w.capture.log[q].lsn <= w.checkpoint
    ensures w.capture.log[at].lsn == lsn
  {
    var q := InBetween(w.capture.log, lsn, lsn);
    assert at <= q;
    assert w.capture.log[at].lsn <= w.capture.log[q].lsn;
  }

  /** While the next transaction is waiting, a batch is not empty. */
  lemma {:induction false} NextIsReadable(w: World, batchSize: int, lsn: Position)
    requires WellFormed(w.capture) && IsNext(w, lsn) && w.checkpoint != 0
    requires ReadBatch(w, w.checkpoint, batchSize).1.Batch?
    ensures ReadBatch(w, w.checkpoint, batchSize).1.groups != []
  {
    var k := ReadReturnsWholeTransactions(w, w.checkpoint, batchSize);
    AwaitIsOnlyTime(w);
    var c := Await(w).world.capture;
    hide ReadBatch, Await;
    var rows := Readable(c, w.checkpoint);
    RangeIsStable(w.capture, c, lsn, lsn);
    BetweenWithin(c.log, w.checkpoint + 1, c.top, lsn, lsn);
    assert rows != [];
    GroupsEnd(rows[..k]);
  }

  /** A batch that goes through passes its first group; one that stops in its first group spends. */
  lemma {:induction false} GroupsProgress(
    w: World, groups: seq<Group>, r: Result, floor: Position, max: int, base: Position, at: nat, end: nat, k: nat)
    requires Invariant(w, max) && Standing(w, base, at, end, k) && OnLog(w.capture.log, groups, at, end)
    requires base == if w.checkpoint == 0 then floor else w.origin
    requires groups != [] && w.checkpoint < groups[0].lsn
    ensures var p := PublishGroups(w, groups, r, floor, max);
            && (p.world.checkpoint == w.checkpoint || p.world.checkpoint >= groups[0].lsn)
            && (p.verdict.Goes? ==> p.world.checkpoint >= groups[0].lsn)
            && (p.verdict.Stops? ==>
                  p.world.checkpoint >= groups[0].lsn
                  || SlackOf(p.world, groups[0].messages, max) < SlackOf(w, groups[0].messages, max))
  {
    hide PublishGroup, OnLog, Standing, WellFormed, Extends, Invariant, Later, Save, SlackOf, Spent, Consistent;
    var g := groups[0];
    var p := PublishGroup(w, g.messages, r, max);
    PublishGroupsKeep(w, groups, r, floor, max, base, at, end, k);
    LastGroupIsLater(w.capture.log, groups, at, end);
    var to, j := FirstGroupKeeps(w, groups, r, max, base, at, end, k);
    if p.verdict.Stops? {
      ForCycle(w, w, max);
      var i := StoppedGroupSpends(w, g.messages, r, max);
      SpentShrinks(w, p.world, g.messages, i, max);
    } else if p.verdict.Goes? {
      FirstGroupPasses(w, p.world, groups, floor, max, base, at, end, to, j);
      var s := Save(p.world, g.lsn, floor);
      if s.value.Some? {
        RestKeeps(s.world, groups, p.result, floor, max, base, at, end, j);
      }
    }
  }

  lemma {:induction false} LastGroupIsLater(log: seq<Row>, groups: seq<Group>, at: nat, end: nat)
    requires OnLog(log, groups, at, end) && groups != []
    ensures groups[0].lsn <= groups[|groups| - 1].lsn
  {
  }

  lemma {:induction false} FirstGroupKeeps(
    w: World, groups: seq<Group>, r: Result, max: int, base: Position, at: nat, end: nat, k: nat)
    returns (to: nat, j: nat)
    requires Invariant(w, max) && Standing(w, base, at, end, k) && OnLog(w.capture.log, groups, at, end)
    requires groups != []
    ensures var p := PublishGroup(w, groups[0].messages, r, max);
            && Later(w, p.world) && Consistent(p.world, max) && SameCheckpoint(w, p.world)
            && Standing(p.world, base, to, end, j)
            && (p.verdict.Goes? ==> to == at + |groups[0].messages|)
  {
    hide PublishGroup, OnLog, Standing, Invariant;
    LaterNow(w);
    ForCycle(w, w, max);
    HeadOfBatch(w.capture, w.capture, groups, at, end);
    to, j := PublishGroupKeeps(w, groups[0].messages, r, max, base, at, end, k);
  }

  lemma {:induction false} FirstGroupPasses(
    w: World, v: World, groups: seq<Group>, floor: Position, max: int, base: Position,
    at: nat, end: nat, to: nat, k: nat)
    requires Invariant(w, max) && OnLog(w.capture.log, groups, at, end) && groups != []
    requires Later(w, v) && Consistent(v, max) && SameCheckpoint(w, v)
    requires to == at + |groups[0].messages| && Standing(v, base, to, end, k)
    requires base == if w.checkpoint == 0 then floor else w.origin
    requires w.checkpoint < groups[0].lsn
    ensures var s := Save(v, groups[0].lsn, floor);
            && Invariant(s.world, max) && Standing(s.world, base, to, end, k)
            && OnLog(s.world.capture.log, groups[1..], to, end)
            && (|groups| > 1 ==> groups[0].lsn < groups[1..][0].lsn)
            && (s.value.Some? ==> s.world.checkpoint == groups[0].lsn && s.world.origin == base)
  {
    hide OnLog, Standing, WellFormed, Extends, Later, Consistent;
    InvariantStays(w, v, max, base, to, end, k);
    AwaitIsLater(w, v, max);
    ForCycle(w, w, max);
    HeadOfBatch(w.capture, Await(v).world.capture, groups, at, end);
    TopGrows(w, v);
    SaveKeeps(v, groups[0].lsn, floor, max, base, to, end, k);
  }

  lemma {:induction false} RestKeeps(
    s: World, groups: seq<Group>, r: Result, floor: Position, max: int, base: Position, at: nat, end: nat, k: nat)
    requires groups != [] && Invariant(s, max) && Standing(s, base, at + |groups[0].messages|, end, k)
    requires OnLog(s.capture.log, groups[1..], at + |groups[0].messages|, end)
    requires s.checkpoint == groups[0].lsn != 0 && s.origin == base
    requires |groups| > 1 ==> groups[0].lsn < groups[1..][0].lsn
    ensures PublishGroups(s, groups[1..], r, floor, max).world.checkpoint >= groups[0].lsn
  {
    hide OnLog, Standing, Invariant, PublishGroups;
    PublishGroupsKeep(s, groups[1..], r, floor, max, base, at + |groups[0].messages|, end, k);
  }

  // Cycles.

  lemma {:induction false} CycleProgress(w: World, options: Options, lsn: Position)
    requires Invariant(w, options.maxPublishAttempts) && w.checkpoint != 0 && IsNext(w, lsn)
    ensures var p := Cycle(w, options);
            var max := options.maxPublishAttempts;
            var ms := Transaction(w.capture, lsn);
            && (p.world.checkpoint == w.checkpoint || p.world.checkpoint >= lsn)
            && (p.verdict.Goes? ==> p.world.checkpoint >= lsn)
            && (p.verdict.Stops? ==> p.world.checkpoint >= lsn || SlackOf(p.world, ms, max) < SlackOf(w, ms, max))
  {
    hide ReadBatch, PublishGroups, Invariant, Later, IsNext, Transaction, SlackOf, Await;
    var max := options.maxPublishAttempts;
    var ms := Transaction(w.capture, lsn);
    var l := Load(w);
    LoadKeeps(w, max);
    if l.value.Some? {
      NextStays(w, l.world, lsn);
      var (v, r) := ReadBatch(l.world, l.world.checkpoint, options.batchSize);
      ForCycle(l.world, l.world, max);
      var _ := ReadReturnsWholeTransactions(l.world, l.world.checkpoint, options.batchSize);
      if r.Batch? {
        NextIsReadable(l.world, options.batchSize, lsn);
        var base, at, end, k := BatchIsNext(l.world, options.batchSize, max, lsn);
        LaterTransitively(w, l.world, v);
        SlackShrinks(w, v, ms, max);
        GroupsProgress(v, r.groups, Result(Processed, 0, 0), r.floor, max, base, at, end, k);
      }
    }
  }

  lemma {:induction false} LoadKeeps(w: World, max: int)
    requires Invariant(w, max)
    ensures var l := Load(w);
            && Invariant(l.world, max) && Later(w, l.world) && l.world.checkpoint == w.checkpoint
            && (l.value.Some? ==> l.value.value == w.checkpoint)
  {
    AwaitIsOnlyTime(w);
    var _ := TimeKeepsFrontier(w, Load(w).world, Load(w).world, max);
    hide Invariant, Later, Await;
  }

  lemma {:induction false} BatchIsNext(w: World, batchSize: int, max: int, lsn: Position)
    returns (base: Position, at: nat, end: nat, k: nat)
    requires Invariant(w, max) && w.checkpoint != 0 && IsNext(w, lsn)
    requires var r := ReadBatch(w, w.checkpoint, batchSize).1; r.Batch? && r.groups != []
    ensures var (v, r) := ReadBatch(w, w.checkpoint, batchSize);
            && Invariant(v, max) && Later(w, v) && Standing(v, base, at, end, k)
            && OnLog(v.capture.log, r.groups, at, end)
            && base == (if v.checkpoint == 0 then r.floor else v.origin)
            && v.checkpoint < r.groups[0].lsn
            && r.groups[0].lsn == lsn && r.groups[0].messages == Transaction(w.capture, lsn)
  {
    hide ReadBatch, Standing, Transaction;
    var (v, r) := ReadBatch(w, w.checkpoint, batchSize);
    base, at, end, k := ReadStands(w, batchSize, max);
    NextStays(w, v, lsn);
    ForCycle(v, v, max);
    hide Invariant, Later;
    FirstRowIsNext(v, at, lsn);
    BatchStartsWithNext(v.capture, r.groups, at, end, lsn);
  }

  /** How many of the turns are cycles that did not end in an error. */
  function Completed(w: World, turns: seq<Turn>, options: Options): nat
    decreases |turns|
  {
    if turns == [] then 0
    else
      var p := Take(w, turns[0], options);
      (if p.verdict.Breaks? then 0 else 1) + Completed(p.world, turns[1..], options)
  }

  lemma {:induction false} TurnProgress(w: World, turn: Turn, options: Options, lsn: Position)
    requires Invariant(w, options.maxPublishAttempts) && w.checkpoint != 0 && IsNext(w, lsn)
    ensures var p := Take(w, turn, options);
            var max := options.maxPublishAttempts;
            var ms := Transaction(w.capture, lsn);
            && Invariant(p.world, max)
            && (p.world.checkpoint >= lsn
                || (IsNext(p.world, lsn) && p.world.checkpoint == w.checkpoint
                    && Transaction(p.world.capture, lsn) == ms
                    && SlackOf(p.world, ms, max) <= SlackOf(w, ms, max)
                    && (p.verdict.Breaks? || SlackOf(p.world, ms, max) < SlackOf(w, ms, max))))
  {
    var max := options.maxPublishAttempts;
    var p := Take(w, turn, options);
    TurnKeeps(w, turn, options);
    SlackShrinks(w, p.world, Transaction(w.capture, lsn), max);
    if turn.Wake? {
      var v := Woken(w, turn.fates);
      WakingKeeps(w, turn.fates, max);
      CycleProgress(v, options, lsn);
      SameSlack(w, v, Transaction(w.capture, lsn), max);
    }
    if p.world.checkpoint < lsn {
      NextStays(w, p.world, lsn);
    }
  }

  lemma {:induction false} SameSlack(w: World, v: World, messages: seq<Envelope>, max: int)
    requires v.failures == w.failures
    ensures SlackOf(v, messages, max) == SlackOf(w, messages, max)
  {
    if messages != [] { SameSlack(w, v, messages[1..], max); }
  }

  lemma {:induction false} RunProgress(w: World, turns: seq<Turn>, options: Options, lsn: Position)
    requires Invariant(w, options.maxPublishAttempts)
    requires w.checkpoint >= lsn || (w.checkpoint != 0 && IsNext(w, lsn))
    ensures RunAll(w, turns, options).checkpoint >= lsn
            || Completed(w, turns, options)
               <= SlackOf(w, Transaction(w.capture, lsn), options.maxPublishAttempts)
    ensures w.checkpoint >= lsn ==> RunAll(w, turns, options).checkpoint >= lsn
    decreases |turns|
  {
    hide Invariant, IsNext, Transaction, SlackOf, Take, Later;
    if w.checkpoint >= lsn {
      RunKeeps(w, turns, options);
    } else if turns != [] {
      TurnProgress(w, turns[0], options, lsn);
      RunProgress(Take(w, turns[0], options).world, turns[1..], options, lsn);
    }
  }

  /** Over every run: once the next transaction is waiting behind a saved checkpoint, the checkpoint
   *  passes it within k * (maxPublishAttempts - 1) + 1 cycles that do not end in an error, k being its
   *  size: however the broker refuses, whatever happens in between. With no attempts allowed, one cycle
   *  will do. */
  lemma {:induction false} StreamIsNotHeldUp(
    w: World, before: seq<Turn>, after: seq<Turn>, options: Options, lsn: Position)
    requires Fresh(w)
    ensures var u := RunAll(w, before, options);
            u.checkpoint != 0 && IsNext(u, lsn)
            && Completed(u, after, options) >= |Transaction(u.capture, lsn)| * Spare(options.maxPublishAttempts) + 1
            ==> RunAll(u, after, options).checkpoint >= lsn
  {
    FreshHolds(w, options.maxPublishAttempts);
    RunKeeps(w, before, options);
    var u := RunAll(w, before, options);
    hide Fresh, Invariant, Completed, IsNext, Transaction, RunAll;
    if u.checkpoint != 0 && IsNext(u, lsn) {
      RunProgress(u, after, options, lsn);
      SlackBound(u, Transaction(u.capture, lsn), options.maxPublishAttempts);
    }
  }
}
