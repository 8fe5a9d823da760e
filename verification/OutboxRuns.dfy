/** What the outbox worker keeps over every run: nothing it could see is lost, the broker sees
 *  messages in commit order, the checkpoint never moves back, and no message holds the stream up
 *  for ever.
 */
module OutboxRuns {
  import opened Calls
  import opened ChangeCapture
  import opened OutboxServices
  import opened OutboxReader
  import opened OutboxWorker
  import opened Histories

  predicate Poisoned(w: World, id: MessageId) {
    Recorded(w.failures, id).poisoned
  }

  /** The broker accepted the message, or it was explicitly given up on. */
  predicate Done(w: World, message: Envelope) {
    message in w.accepted || Poisoned(w, message.id)
  }

  /** Every row the worker was ever able to see, up to the checkpoint, is done. */
  ghost predicate NothingLost(w: World) {
    w.checkpoint != 0 ==>
      forall q :: 0 <= q < |w.capture.log| && w.origin <= w.capture.log[q].lsn <= w.checkpoint ==>
        Done(w, w.capture.log[q].message)
  }

  /** Row q will never be sent for the first time from now on. */
  ghost predicate Settled(w: World, q: nat)
    requires q < |w.capture.log|
  {
    var row := w.capture.log[q];
    row.message in w.sent || Poisoned(w, row.message.id) || row.lsn < w.capture.floor
  }

  /** Everything sent so far lies, in order, among the first k rows, and those rows are settled. */
  ghost predicate Frontier(w: World, k: nat) {
    && k <= |w.capture.log|
    && Subsequence(Firsts(w.sent), MessagesOf(w.capture.log[..k]))
    && forall q :: 0 <= q < k ==> Settled(w, q)
  }

  /** The parts of the invariant that do not mention the checkpoint or the frontier. */
  ghost predicate Consistent(w: World, max: int) {
    && WellFormed(w.capture)
    && (forall id :: id in w.failures && w.failures[id].poisoned ==> w.failures[id].attempts >= max)
    && (forall e :: e in w.accepted ==> e in w.sent)
  }

  ghost predicate Invariant(w: World, max: int) {
    && Consistent(w, max)
    && w.checkpoint <= w.capture.top
    && (w.checkpoint != 0 ==> w.origin <= w.capture.floor)
    && NothingLost(w)
    && exists k :: Frontier(w, k)
  }

  // What every call leaves in place.

  ghost predicate Later(w: World, v: World) {
    && Extends(w.capture, v.capture)
    && w.accepted <= v.accepted
    && (forall id :: Poisoned(w, id) ==> Poisoned(v, id))
    && (forall id :: Recorded(w.failures, id).attempts <= Recorded(v.failures, id).attempts)
    && w.sent <= v.sent
    && (forall i :: |w.sent| <= i < |v.sent| ==> !Poisoned(w, v.sent[i].id))
  }

  lemma {:induction false} LaterTransitively(u: World, v: World, w: World)
    requires Later(u, v) && Later(v, w)
    ensures Later(u, w)
  {
    ExtendsTransitively(u.capture, v.capture, w.capture);
    assert forall id :: Recorded(u.failures, id).attempts <= Recorded(v.failures, id).attempts;
  }

  lemma {:induction false} TimeIsLater(w: World, v: World, max: int)
    requires OnlyTime(w, v) && Consistent(w, max)
    ensures Later(w, v) && Consistent(v, max)
  {
  }

  /** What the worker was told plays no part in any of this. */
  lemma {:induction false} HeardIsIrrelevant(w: World, v: World, max: int)
    requires v == w.(heard := v.heard)
    ensures Later(w, v) && (Consistent(w, max) ==> Consistent(v, max)) && (WellFormed(w.capture) ==> WellFormed(v.capture))
  {
  }

  lemma {:induction false} CountedAwait(w: World)
    ensures Await(Counted(w)) == Await(w).(world := Await(w).world.(heard := Counted(w).heard))
  {
    hide Evolve;
  }

  lemma {:induction false} PollIsLater(w: World, max: int)
    requires Consistent(w, max)
    ensures var v := Poll(w).world;
            && v == w.(capture := v.capture, heard := v.heard, script := v.script)
            && Later(w, v) && Consistent(v, max)
  {
    AwaitIsOnlyTime(w);
    TimeIsLater(w, Await(w).world, max);
    HeardIsIrrelevant(Await(w).world, Poll(w).world, max);
    LaterTransitively(w, Await(w).world, Poll(w).world);
    hide Later, Consistent, Await;
  }

  lemma {:induction false} SendKeeps(w: World, m: Envelope, max: int)
    requires Consistent(w, max) && !Poisoned(w, m.id)
    ensures var p := Publish(w, m);
            && Later(w, p.world) && Consistent(p.world, max)
            && p.world.checkpoint == w.checkpoint && p.world.origin == w.origin && p.world.failures == w.failures
            && (p.outcome.Succeeds? ==> Done(p.world, m))
            && (p.world.sent == w.sent || p.world.sent == w.sent + [m])
  {
    AwaitIsOnlyTime(w);
    hide WellFormed, Extends, Evolve;
  }

  /** Attempting one message sends it at most once, and only if it was not given up on. */
  lemma {:induction false} PublishOneKeeps(w: World, m: Envelope, r: Result, max: int)
    requires Consistent(w, max)
    ensures var p := PublishOne(w, m, r, max);
            && Later(w, p.world) && Consistent(p.world, max)
            && p.world.checkpoint == w.checkpoint && p.world.origin == w.origin
            && (p.verdict.Goes? ==> Done(p.world, m))
            && (p.world.sent == w.sent || (p.world.sent == w.sent + [m] && !Poisoned(w, m.id)))
  {
    var f := Get(w, m.id);
    AwaitIsOnlyTime(w);
    TimeIsLater(w, f.world, max);
    if f.value.Some? && !f.value.value.poisoned {
      SendKeeps(f.world, m, max);
      var p := Publish(f.world, m);
      LaterTransitively(w, f.world, p.world);
      if p.outcome.Fails? && !p.outcome.cancelled {
        RefuseKeeps(p.world, m, r, max);
        LaterTransitively(w, p.world, Refuse(p.world, m, r, max).world);
      }
    }
    hide Later, Consistent, Publish, Refuse, Await;
  }

  lemma {:induction false} RecordKeeps(w: World, id: MessageId, max: int)
    requires Consistent(w, max)
    ensures var f := RecordFailure(w, id);
            && Later(w, f.world) && Consistent(f.world, max)
            && f.world == w.(capture := f.world.capture, failures := f.world.failures, heard := f.world.heard,
                             script := f.world.script)
            && (f.value.Some? ==>
                  && f.value.value == Recorded(w.failures, id).attempts + 1
                  && id in f.world.failures && f.world.failures[id].attempts == f.value.value)
  {
    AwaitIsOnlyTime(w);
    hide WellFormed, Extends, Evolve;
  }

  lemma {:induction false} PoisonKeeps(w: World, id: MessageId, max: int)
    requires Consistent(w, max) && id in w.failures && w.failures[id].attempts >= max
    ensures var p := MarkPoisoned(w, id);
            && Later(w, p.world) && Consistent(p.world, max)
            && p.world == w.(capture := p.world.capture, failures := p.world.failures, heard := p.world.heard,
                             script := p.world.script)
            && (p.value.Some? ==> Poisoned(p.world, id))
  {
    AwaitIsOnlyTime(w);
    hide WellFormed, Extends, Evolve;
  }

  lemma {:induction false} RefuseKeeps(w: World, m: Envelope, r: Result, max: int)
    requires Consistent(w, max)
    ensures var p := Refuse(w, m, r, max);
            && Later(w, p.world) && Consistent(p.world, max)
            && p.world == w.(capture := p.world.capture, failures := p.world.failures, heard := p.world.heard,
                             script := p.world.script)
            && (p.verdict.Goes? ==> Poisoned(p.world, m.id))
  {
    var f := RecordFailure(w, m.id);
    RecordKeeps(w, m.id, max);
    if f.value.Some? && f.value.value >= max {
      PoisonKeeps(f.world, m.id, max);
      LaterTransitively(w, f.world, MarkPoisoned(f.world, m.id).world);
    }
    hide RecordFailure, MarkPoisoned, WellFormed, Extends, Later, Consistent;
  }

  // One group at a time.

  /** Rows before n that the cycle had to account for are done; base is the oldest it had to. */
  ghost predicate Covered(w: World, base: Position, n: nat) {
    && n <= |w.capture.log|
    && forall q :: 0 <= q < n && w.capture.log[q].lsn >= base ==> Done(w, w.capture.log[q].message)
  }

  /** Rows from at to end are next; those of them behind the frontier need no first sending. */
  ghost predicate Ahead(w: World, at: nat, end: nat, k: nat) {
    && at <= end <= |w.capture.log|
    && forall q :: at <= q < end && q < k ==>
         w.capture.log[q].message in w.sent || Poisoned(w, w.capture.log[q].message.id)
  }

  /** Where a cycle stands when it is about to handle row at. */
  ghost predicate Standing(w: World, base: Position, at: nat, end: nat, k: nat) {
    && base <= w.capture.floor
    && Covered(w, base, at) && Ahead(w, at, end, k) && Frontier(w, k)
  }

  lemma {:induction false} CoveredStays(w: World, v: World, base: Position, n: nat)
    requires Later(w, v) && Covered(w, base, n)
    ensures Covered(v, base, n)
  {
    forall q | 0 <= q < n && v.capture.log[q].lsn >= base ensures Done(v, v.capture.log[q].message) {
      assert v.capture.log[q] == w.capture.log[q];
    }
  }

  lemma {:induction false} SettledStays(w: World, v: World, q: nat)
    requires Later(w, v) && q < |w.capture.log| && Settled(w, q)
    ensures Settled(v, q)
  {
    assert v.capture.log[q] == w.capture.log[q];
  }

  lemma {:induction false} FrontierStays(w: World, v: World, k: nat)
    requires Later(w, v) && Frontier(w, k) && Firsts(v.sent) == Firsts(w.sent)
    ensures Frontier(v, k)
  {
    assert v.capture.log[..k] == w.capture.log[..k];
    forall q | 0 <= q < k ensures Settled(v, q) {
      SettledStays(w, v, q);
    }
  }

  lemma {:induction false} AheadStays(w: World, v: World, at: nat, end: nat, k: nat)
    requires Later(w, v) && Ahead(w, at, end, k)
    ensures Ahead(v, at, end, k)
  {
    forall q | at <= q < end && q < k
      ensures v.capture.log[q].message in v.sent || Poisoned(v, v.capture.log[q].message.id)
    {
      assert v.capture.log[q] == w.capture.log[q];
    }
  }

  lemma {:induction false} StandingStays(w: World, v: World, base: Position, at: nat, end: nat, k: nat)
    requires Later(w, v) && Standing(w, base, at, end, k) && Firsts(v.sent) == Firsts(w.sent)
    ensures Standing(v, base, at, end, k)
  {
    CoveredStays(w, v, base, at);
    AheadStays(w, v, at, end, k);
    FrontierStays(w, v, k);
  }

  lemma {:induction false} SentStaysInOrder(log: seq<Row>, sent: seq<Envelope>, k: nat, at: nat)
    requires k <= at < |log| && Subsequence(Firsts(sent), MessagesOf(log[..k])) && log[at].message !in sent
    ensures Subsequence(Firsts(sent + [log[at].message]), MessagesOf(log[..at + 1]))
  {
    hide Firsts, Subsequence;
    var m := log[at].message;
    FirstsOfAppend(sent, m);
    assert MessagesOf(log[..k]) == MessagesOf(log[..at])[..k];
    SubsequenceOfLonger(Firsts(sent), MessagesOf(log[..k]), MessagesOf(log[..at]));
    SubsequenceOfAppend(Firsts(sent), MessagesOf(log[..at]), m);
    assert MessagesOf(log[..at + 1]) == MessagesOf(log[..at]) + [m];
  }

  lemma {:induction false} CoveredIsSettled(w: World, base: Position, n: nat, q: nat)
    requires Covered(w, base, n) && base <= w.capture.floor && q < n
    requires forall e :: e in w.accepted ==> e in w.sent
    ensures Settled(w, q)
  {
  }

  /** Sending row at for the first time moves the frontier right behind it. */
  lemma {:induction false} FrontierMoves(w: World, v: World, base: Position, at: nat, end: nat, k: nat)
    requires Later(w, v) && Standing(w, base, at, end, k) && k <= at < end
    requires forall e :: e in w.accepted ==> e in w.sent
    requires var m := w.capture.log[at].message; m !in w.sent && v.sent == w.sent + [m]
    ensures Frontier(v, at + 1)
  {
    var log := v.capture.log;
    assert log[..k] == w.capture.log[..k];
    assert log[at] == w.capture.log[at];
    SentStaysInOrder(log, w.sent, k, at);
    hide Firsts, Subsequence;
    forall q | 0 <= q < at ensures Settled(v, q) {
      CoveredIsSettled(w, base, at, q);
      SettledStays(w, v, q);
    }
  }

  lemma {:induction false} DoneMovesStanding(v: World, base: Position, at: nat, end: nat, k: nat)
    requires Standing(v, base, at, end, k) && at < end && Done(v, v.capture.log[at].message)
    ensures Standing(v, base, at + 1, end, k)
  {
    hide Frontier;
  }

  /** Handling row at keeps the stand, one row further on if the row is done. */
  lemma {:induction false} RowKeepsStanding(w: World, v: World, base: Position, at: nat, end: nat, k: nat)
    returns (j: nat)
    requires Later(w, v) && Standing(w, base, at, end, k) && at < end
    requires forall e :: e in w.accepted ==> e in w.sent
    requires var m := w.capture.log[at].message;
             v.sent == w.sent || (v.sent == w.sent + [m] && !Poisoned(w, m.id))
    ensures Standing(v, base, at, end, j)
    ensures at < end <= |v.capture.log| && (Done(v, v.capture.log[at].message) ==> Standing(v, base, at + 1, end, j))
  {
    hide Firsts, Subsequence, Frontier;
    var m := w.capture.log[at].message;
    FirstsOfAppend(w.sent, m);
    if v.sent == w.sent || m in w.sent {
      j := k;
      StandingStays(w, v, base, at, end, k);
    } else {
      j := at + 1;
      assert k <= at;
      FrontierMoves(w, v, base, at, end, k);
      CoveredStays(w, v, base, at);
      assert v.capture.log[at] == w.capture.log[at];
      assert Ahead(v, at, end, j);
    }
    if Done(v, v.capture.log[at].message) {
      DoneMovesStanding(v, base, at, end, j);
    }
  }

  ghost predicate RowsCarry(log: seq<Row>, at: nat, messages: seq<Envelope>) {
    at + |messages| <= |log| && forall i :: 0 <= i < |messages| ==> log[at + i].message == messages[i]
  }

  lemma {:induction false} RowsCarryTail(log: seq<Row>, later: seq<Row>, at: nat, messages: seq<Envelope>)
    requires RowsCarry(log, at, messages) && log <= later && messages != []
    ensures RowsCarry(later, at + 1, messages[1..])
  {
    forall i | 0 <= i < |messages[1..]| ensures later[at + 1 + i].message == messages[1..][i] {
      assert log[at + (i + 1)].message == messages[i + 1];
    }
  }

  ghost predicate SameCheckpoint(w: World, v: World) {
    v.checkpoint == w.checkpoint && v.origin == w.origin
  }

  /** One message of a batch: the poll, then the attempt. */
  lemma {:induction false} MessageKeeps(
    w: World, r: Result, max: int, base: Position, at: nat, end: nat, k: nat) returns (j: nat)
    requires Consistent(w, max) && Standing(w, base, at, end, k) && at < end
    ensures var m := w.capture.log[at].message;
            var v := Poll(w).world;
            var p := PublishOne(v, m, r, max);
            && Later(w, v) && Later(w, p.world) && Consistent(v, max) && Consistent(p.world, max)
            && SameCheckpoint(w, v) && SameCheckpoint(w, p.world)
            && Standing(v, base, at, end, k)
            && Standing(p.world, base, at, end, j)
            && (p.verdict.Goes? ==> Standing(p.world, base, at + 1, end, j))
  {
    var m := w.capture.log[at].message;
    var v := Poll(w).world;
    PollIsLater(w, max);
    StandingStays(w, v, base, at, end, k);
    PublishOneKeeps(v, m, r, max);
    hide PublishOne, Poll, Firsts, Subsequence, Frontier, Extends, WellFormed;
    var p := PublishOne(v, m, r, max);
    j := RowKeepsStanding(v, p.world, base, at, end, k);
    LaterTransitively(w, v, p.world);
    LogGrows(w, p.world);
  }

  lemma {:induction false} LogGrows(w: World, v: World)
    requires Later(w, v)
    ensures w.capture.log <= v.capture.log
    ensures forall q :: 0 <= q < |w.capture.log| ==> v.capture.log[q] == w.capture.log[q]
  {
  }

  lemma {:induction false} PublishGroupKeeps(
    w: World, messages: seq<Envelope>, r: Result, max: int, base: Position, at: nat, end: nat, k: nat)
    returns (to: nat, j: nat)
    requires Consistent(w, max) && Standing(w, base, at, end, k)
    requires RowsCarry(w.capture.log, at, messages) && at + |messages| <= end
    ensures var p := PublishGroup(w, messages, r, max);
            && Later(w, p.world) && Consistent(p.world, max) && SameCheckpoint(w, p.world)
            && Standing(p.world, base, to, end, j)
            && (p.verdict.Goes? ==> to == at + |messages|)
    decreases |messages|
  {
    hide PublishOne, Consistent, Standing, Later, Poll;
    to, j := at, k;
    if messages == [] {
      LaterNow(w);
    } else {
      assert messages[0] == w.capture.log[at].message;
      j := MessageKeeps(w, r, max, base, at, end, k);
      var s := Poll(w);
      if s.outcome.Succeeds? {
        var p := PublishOne(s.world, messages[0], r, max);
        if p.verdict.Goes? {
          LogGrows(w, p.world);
          RowsCarryTail(w.capture.log, p.world.capture.log, at, messages);
          to, j := PublishGroupKeeps(p.world, messages[1..], p.result, max, base, at + 1, end, j);
          LaterTransitively(w, p.world, PublishGroup(w, messages, r, max).world);
        }
      } else {
        j := k;
      }
    }
  }

  lemma {:induction false} LaterNow(w: World)
    ensures Later(w, w)
  {
  }

  // One cycle.

  lemma {:induction false} LossStays(w: World, v: World)
    requires Later(w, v) && SameCheckpoint(w, v) && NothingLost(w) && w.checkpoint <= w.capture.top
    ensures NothingLost(v)
  {
    if v.checkpoint != 0 {
      forall q | 0 <= q < |v.capture.log| && v.origin <= v.capture.log[q].lsn <= v.checkpoint
        ensures Done(v, v.capture.log[q].message)
      {
        assert q < |w.capture.log| && v.capture.log[q] == w.capture.log[q];
      }
    }
  }

  lemma {:induction false} InvariantStays(w: World, v: World, max: int, base: Position, at: nat, end: nat, k: nat)
    requires Invariant(w, max) && Later(w, v) && SameCheckpoint(w, v) && Consistent(v, max)
    requires Standing(v, base, at, end, k)
    ensures Invariant(v, max)
  {
    LossStays(w, v);
    hide Frontier, NothingLost, WellFormed;
  }

  /** The checkpoint a group leaves behind covers exactly the rows before the next group. */
  lemma {:induction false} CheckpointCovers(
    w: World, lsn: Position, floor: Position, max: int, base: Position, mid: nat, end: nat, k: nat)
    requires Invariant(w, max) && Standing(w, base, mid, end, k)
    requires base == if w.checkpoint == 0 then floor else w.origin
    requires w.checkpoint < lsn <= w.capture.top
    requires mid < |w.capture.log| ==> lsn < w.capture.log[mid].lsn
    ensures Invariant(w.(checkpoint := lsn, origin := base), max)
    ensures Standing(w.(checkpoint := lsn, origin := base), base, mid, end, k)
  {
    hide Subsequence, Firsts;
    var v := w.(checkpoint := lsn, origin := base);
    forall q | 0 <= q < |v.capture.log| && v.origin <= v.capture.log[q].lsn <= v.checkpoint
      ensures Done(v, v.capture.log[q].message)
    {
      assert q < mid;
    }
    FrontierIgnoresCheckpoint(w, v, k);
    hide Frontier;
  }

  lemma {:induction false} FrontierIgnoresCheckpoint(w: World, v: World, k: nat)
    requires Frontier(w, k) && v == w.(checkpoint := v.checkpoint, origin := v.origin)
    ensures Frontier(v, k)
  {
    forall q | 0 <= q < k ensures Settled(v, q) {
      assert Settled(w, q);
    }
  }

  lemma {:induction false} SaveKeeps(
    w: World, lsn: Position, floor: Position, max: int, base: Position, mid: nat, end: nat, k: nat)
    requires Invariant(w, max) && Standing(w, base, mid, end, k)
    requires base == if w.checkpoint == 0 then floor else w.origin
    requires w.checkpoint < lsn <= w.capture.top
    requires var log := Await(w).world.capture.log; mid < |log| ==> lsn < log[mid].lsn
    ensures var s := Save(w, lsn, floor);
            && Invariant(s.world, max) && Standing(s.world, base, mid, end, k) && Later(w, s.world)
            && (s.world.checkpoint == w.checkpoint || s.world.checkpoint == lsn)
            && (s.value.Some? ==> s.world.checkpoint == lsn && s.world.origin == base)
            && s.world.capture == Await(w).world.capture
  {
    var v := Await(Counted(w)).world;
    CountedAwait(w);
    AwaitIsOnlyTime(w);
    TimeIsLater(w, Await(w).world, max);
    HeardIsIrrelevant(Await(w).world, v, max);
    LaterTransitively(w, Await(w).world, v);
    StandingStays(w, v, base, mid, end, k);
    InvariantStays(w, v, max, base, mid, end, k);
    CheckpointCovers(v, lsn, floor, max, base, mid, end, k);
    LaterWithCheckpoint(w, v, lsn, base);
    hide Standing, Invariant, Consistent, Await, Later;
  }

  lemma {:induction false} LaterWithCheckpoint(w: World, v: World, checkpoint: Position, origin: Position)
    requires Later(w, v)
    ensures Later(w, v.(checkpoint := checkpoint, origin := origin))
  {
  }

  /** What the first group of a batch says about the log, now and after any amount of time. */
  lemma {:induction false} HeadOfBatch(c: Capture, d: Capture, groups: seq<Group>, at: nat, end: nat)
    requires WellFormed(c) && Extends(c, d) && OnLog(c.log, groups, at, end) && groups != []
    ensures var g := groups[0];
            var mid := at + |g.messages|;
            && mid <= end && RowsCarry(c.log, at, g.messages) && 0 < g.lsn <= c.top
            && (mid < |d.log| ==> g.lsn < d.log[mid].lsn)
            && OnLog(d.log, groups[1..], mid, end)
            && (|groups| > 1 ==> g.lsn < groups[1..][0].lsn)
  {
    var g := groups[0];
    var mid := at + |g.messages|;
    OnLogHead(c.log, groups, at, end);
    OnLogIsStable(c, d, groups, at, end);
    OnLogHead(d.log, groups, at, end);
    hide RowsIn;
    assert c.log[at] == c.log[at..mid][0];
    forall i | 0 <= i < |g.messages| ensures c.log[at + i].message == g.messages[i] {
      assert c.log[at + i] == c.log[at..mid][i];
    }
  }

  lemma {:induction false} PublishGroupsKeep(
    w: World, groups: seq<Group>, r: Result, floor: Position, max: int, base: Position, at: nat, end: nat, k: nat)
    requires Invariant(w, max) && Standing(w, base, at, end, k) && OnLog(w.capture.log, groups, at, end)
    requires base == if w.checkpoint == 0 then floor else w.origin
    requires groups != [] ==> w.checkpoint < groups[0].lsn
    ensures var p := PublishGroups(w, groups, r, floor, max);
            && Invariant(p.world, max) && Later(w, p.world)
            && (p.world.checkpoint == w.checkpoint || (groups != [] && p.world.checkpoint >= groups[0].lsn))
            && (p.verdict.Goes? && groups != [] ==> p.world.checkpoint == groups[|groups| - 1].lsn)
    decreases |groups|
  {
    hide PublishGroup, Save, Invariant, Standing, Later, OnLog, Consistent, WellFormed, Extends;
    if groups == [] {
      LaterNow(w);
    } else {
      var g := groups[0];
      var mid := at + |g.messages|;
      ForCycle(w, w, max);
      assert Extends(w.capture, w.capture) by { LaterNow(w); ForCycle(w, w, max); }
      HeadOfBatch(w.capture, w.capture, groups, at, end);
      var to, j := PublishGroupKeeps(w, g.messages, r, max, base, at, end, k);
      var p := PublishGroup(w, g.messages, r, max);
      InvariantStays(w, p.world, max, base, to, end, j);
      if p.verdict.Goes? {
        var d := Await(p.world).world.capture;
        AwaitIsLater(w, p.world, max);
        HeadOfBatch(w.capture, d, groups, at, end);
        TopGrows(w, p.world);
        SaveKeeps(p.world, g.lsn, floor, max, base, mid, end, j);
        var s := Save(p.world, g.lsn, floor);
        LaterTransitively(w, p.world, s.world);
        if s.value.Some? {
          PublishGroupsKeep(s.world, groups[1..], p.result, floor, max, base, mid, end, j);
          LaterTransitively(w, s.world, PublishGroups(w, groups, r, floor, max).world);
          assert |groups| > 1 ==> groups[1..][|groups| - 2] == groups[|groups| - 1];
        }
      }
    }
  }

  lemma {:induction false} ForCycle(w: World, v: World, max: int)
    requires Invariant(w, max)
    ensures Consistent(w, max) && WellFormed(w.capture)
    ensures Later(w, v) ==> Extends(w.capture, v.capture)
  {
  }

  lemma {:induction false} TopGrows(w: World, v: World)
    requires Later(w, v)
    ensures w.capture.top <= v.capture.top
  {
  }

  lemma {:induction false} AwaitIsLater(w: World, v: World, max: int)
    requires Later(w, v) && Consistent(v, max)
    ensures Extends(w.capture, Await(v).world.capture)
  {
    AwaitIsOnlyTime(v);
    ExtendsTransitively(w.capture, v.capture, Await(v).world.capture);
  }

  // From the read to the stand.

  /** The batch a read returns starts where the cycle stands. */
  lemma {:induction false} ReadStands(w: World, batchSize: int, max: int)
    returns (base: Position, at: nat, end: nat, k: nat)
    requires Invariant(w, max) && ReadBatch(w, w.checkpoint, batchSize).1.Batch?
    ensures var (v, r) := ReadBatch(w, w.checkpoint, batchSize);
            && Invariant(v, max) && Later(w, v) && SameCheckpoint(w, v)
            && OnLog(v.capture.log, r.groups, at, end)
            && (r.groups != [] ==>
                  && Standing(v, base, at, end, k)
                  && base == (if v.checkpoint == 0 then r.floor else v.origin)
                  && v.checkpoint < r.groups[0].lsn
                  && at < |v.capture.log| && v.checkpoint < v.capture.log[at].lsn
                  && (v.checkpoint != 0 ==> forall q :: 0 <= q < at ==> v.capture.log[q].lsn <= v.checkpoint))
  {
    var (v, r) := ReadBatch(w, w.checkpoint, batchSize);
    var b := w.(capture := Await(w).world.capture);
    var cut := ReadReturnsWholeTransactions(w, w.checkpoint, batchSize);
    AwaitIsOnlyTime(w);
    at, end := ReadLiesOnLog(w, w.checkpoint, batchSize);
    base := if v.checkpoint == 0 then r.floor else v.origin;
    k := TimeKeepsFrontier(w, b, v, max);
    hide ReadBatch, Await;
    if r.groups != [] {
      StandsAfterRead(b, v, r, at, end, k, max);
    }
  }

  lemma {:induction false} TimeKeepsFrontier(w: World, b: World, v: World, max: int) returns (k: nat)
    requires Invariant(w, max) && OnlyTime(w, b) && OnlyTime(b, v.(script := b.script)) && OnlyTime(w, v)
    ensures Invariant(b, max) && Invariant(v, max) && Later(w, v) && Later(b, v)
    ensures Frontier(b, k) && Frontier(v, k)
  {
    hide Subsequence, Firsts, Evolve;
    k :| Frontier(w, k);
    TimeIsLater(w, b, max);
    TimeIsLater(w, v, max);
    FrontierStays(w, b, k);
    FrontierStays(w, v, k);
    LossStays(w, b);
    LossStays(w, v);
  }

  lemma {:induction false} StandsAfterRead(b: World, v: World, r: ReadResult, at: nat, end: nat, k: nat, max: int)
    requires Invariant(b, max) && Invariant(v, max) && Later(b, v) && SameCheckpoint(b, v) && Frontier(b, k) && Frontier(v, k)
    requires v.sent == b.sent && v.failures == b.failures && v.accepted == b.accepted
    requires r.Batch? && r.groups != [] && r.floor == b.capture.floor && OnLog(v.capture.log, r.groups, at, end)
    requires b.checkpoint != 0 ==> b.capture.floor <= b.checkpoint + 1
    requires var from := if b.checkpoint == 0 then r.floor else b.checkpoint + 1;
             at < |v.capture.log| && from <= v.capture.log[at].lsn && forall q :: 0 <= q < at ==> v.capture.log[q].lsn < from
    ensures Standing(v, if v.checkpoint == 0 then r.floor else v.origin, at, end, k)
    ensures v.checkpoint < r.groups[0].lsn
  {
    hide Subsequence, Firsts, Frontier;
    var base := if v.checkpoint == 0 then r.floor else v.origin;
    OnLogHead(v.capture.log, r.groups, at, end);
    var mid := at + |r.groups[0].messages|;
    assert v.capture.log[at] == v.capture.log[at..mid][0];
    assert v.capture.log[at].lsn == r.groups[0].lsn;
    assert v.checkpoint == b.checkpoint;
    hide OnLog, WellFormed, Extends;
    forall q | at <= q < end && q < k
      ensures v.capture.log[q].message in v.sent || Poisoned(v, v.capture.log[q].message.id)
    {
      FrontierSettles(b, k, q);
      LogGrows(b, v);
      SortedFrom(v.capture, at, q);
    }
    forall q | 0 <= q < at && v.capture.log[q].lsn >= base ensures Done(v, v.capture.log[q].message) {
    }
  }

  lemma {:induction false} SortedFrom(c: Capture, i: nat, j: nat)
    requires WellFormed(c) && i <= j < |c.log|
    ensures c.log[i].lsn <= c.log[j].lsn
  {
  }

  lemma {:induction false} FrontierSettles(w: World, k: nat, q: nat)
    requires Frontier(w, k) && q < k
    ensures q < |w.capture.log| && Settled(w, q)
  {
  }

  /** Whatever the services do, a cycle keeps the invariant and never moves the checkpoint back. */
  lemma {:induction false} CycleKeeps(w: World, options: Options)
    requires Invariant(w, options.maxPublishAttempts)
    ensures var p := Cycle(w, options);
            && Invariant(p.world, options.maxPublishAttempts)
            && Later(w, p.world) && w.checkpoint <= p.world.checkpoint
  {
    var max := options.maxPublishAttempts;
    var l := Load(w);
    AwaitIsOnlyTime(w);
    var _ := TimeKeepsFrontier(w, l.world, l.world, max);
    var (v, r) := ReadBatch(l.world, l.world.checkpoint, options.batchSize);
    var _ := ReadReturnsWholeTransactions(l.world, l.world.checkpoint, options.batchSize);
    if l.value.Some? {
      var _ := TimeKeepsFrontier(l.world, l.world, v, max);
      LaterTransitively(w, l.world, v);
      if r.Batch? && r.groups != [] {
        var base, at, end, k := ReadStands(l.world, options.batchSize, max);
        var start := Result(Processed, 0, 0);
        PublishGroupsKeep(v, r.groups, start, r.floor, max, base, at, end, k);
        LaterTransitively(w, v, PublishGroups(v, r.groups, start, r.floor, max).world);
      }
    }
    hide ReadBatch, PublishGroups, Invariant, Later;
  }

  // Every run.

  /** Between cycles the table changes; a cycle runs against its own script of fates. */
  datatype Turn = Elsewhere(change: Change) | Wake(fates: seq<Fate>)

  function Woken(w: World, fates: seq<Fate>): World {
    w.(script := fates, heard := w.heard.(stopping := false))
  }

  function Take(w: World, turn: Turn, options: Options): Progress {
    match turn
    case Elsewhere(change) => Progress(w.(capture := Apply(w.capture, change)), Result(Idle, 0, 0), Breaks)
    case Wake(fates) => Cycle(Woken(w, fates), options)
  }

  function RunAll(w: World, turns: seq<Turn>, options: Options): World
    decreases |turns|
  {
    if turns == [] then w else RunAll(Take(w, turns[0], options).world, turns[1..], options)
  }

  /** A worker that has never run: no checkpoint, no failures, nothing at the broker. */
  ghost predicate Fresh(w: World) {
    && WellFormed(w.capture) && w.checkpoint == 0 && w.failures == map[] && w.sent == [] && w.accepted == multiset{}
    && w.heard == Heard(multiset{}, false, 0)
  }

  lemma {:induction false} WakingKeeps(w: World, fates: seq<Fate>, max: int)
    requires Invariant(w, max)
    ensures Invariant(Woken(w, fates), max) && Later(w, Woken(w, fates))
  {
    var k :| Frontier(w, k);
    var v := Woken(w, fates);
    LaterNow(w);
    assert Later(w, v);
    FrontierStays(w, v, k);
  }

  lemma {:induction false} TurnKeeps(w: World, turn: Turn, options: Options)
    requires Invariant(w, options.maxPublishAttempts)
    ensures var v := Take(w, turn, options).world;
            Invariant(v, options.maxPublishAttempts) && Later(w, v) && w.checkpoint <= v.checkpoint
  {
    var max := options.maxPublishAttempts;
    match turn
    case Elsewhere(change) =>
      EvolveExtends(w.capture, [change]);
      assert Evolve(w.capture, [change]) == Apply(w.capture, change);
      var v := w.(capture := Apply(w.capture, change));
      var _ := TimeKeepsFrontier(w, v, v, max);
    case Wake(fates) =>
      WakingKeeps(w, fates, max);
      CycleKeeps(Woken(w, fates), options);
      LaterTransitively(w, Woken(w, fates), Cycle(Woken(w, fates), options).world);
      hide Cycle, Invariant, Later;
  }

  lemma {:induction false} RunKeeps(w: World, turns: seq<Turn>, options: Options)
    requires Invariant(w, options.maxPublishAttempts)
    ensures var v := RunAll(w, turns, options);
            Invariant(v, options.maxPublishAttempts) && Later(w, v) && w.checkpoint <= v.checkpoint
    decreases |turns|
  {
    hide Invariant, Later, Cycle;
    if turns == [] {
      LaterNow(w);
    } else {
      TurnKeeps(w, turns[0], options);
      var v := Take(w, turns[0], options).world;
      RunKeeps(v, turns[1..], options);
      LaterTransitively(w, v, RunAll(w, turns, options));
    }
  }

  lemma {:induction false} FreshHolds(w: World, max: int)
    requires Fresh(w)
    ensures Invariant(w, max)
  {
    assert Frontier(w, 0);
  }

  lemma {:induction false} RunsCompose(w: World, turns: seq<Turn>, i: nat, options: Options)
    requires i <= |turns|
    ensures RunAll(w, turns, options) == RunAll(RunAll(w, turns[..i], options), turns[i..], options)
    decreases |turns|
  {
    hide Take;
    if i == 0 {
      assert turns[..0] == [] && turns[0..] == turns;
    } else {
      RunsCompose(Take(w, turns[0], options).world, turns[1..], i - 1, options);
      assert turns[..i][1..] == turns[1..][..i - 1] && turns[i..] == turns[1..][i - 1..];
    }
  }

  /** No loss: from the first run on, every captured row between what the worker could first see and
   *  the saved checkpoint was accepted by the broker or explicitly given up on. */
  lemma {:induction false} NoMessageIsLost(w: World, turns: seq<Turn>, options: Options)
    requires Fresh(w)
    ensures var v := RunAll(w, turns, options);
            v.checkpoint != 0 ==>
              forall q :: 0 <= q < |v.capture.log| && v.origin <= v.capture.log[q].lsn <= v.checkpoint ==>
                v.capture.log[q].message in v.accepted || Poisoned(v, v.capture.log[q].message.id)
  {
    FreshHolds(w, options.maxPublishAttempts);
    RunKeeps(w, turns, options);
    hide RunAll;
  }

  /** The checkpoint never moves back, whatever point of a run is compared with a later one. */
  lemma {:induction false} CheckpointNeverDecreases(w: World, turns: seq<Turn>, i: nat, options: Options)
    requires Fresh(w) && i <= |turns|
    ensures RunAll(w, turns[..i], options).checkpoint <= RunAll(w, turns, options).checkpoint
  {
    FreshHolds(w, options.maxPublishAttempts);
    RunKeeps(w, turns[..i], options);
    RunKeeps(RunAll(w, turns[..i], options), turns[i..], options);
    RunsCompose(w, turns, i, options);
  }

  /** The broker's history with repeats dropped is the log with entries left out: nothing is sent
   *  for the first time after something committed later, and nothing is sent that was not committed. */
  lemma {:induction false} BrokerSeesCommitOrder(w: World, turns: seq<Turn>, options: Options)
    requires Fresh(w)
    ensures var v := RunAll(w, turns, options);
            && Subsequence(Firsts(v.sent), MessagesOf(v.capture.log))
            && forall m :: m in v.sent ==> m in MessagesOf(v.capture.log)
  {
    FreshHolds(w, options.maxPublishAttempts);
    RunKeeps(w, turns, options);
    var v := RunAll(w, turns, options);
    var k: nat :| Frontier(v, k);
    hide RunAll, Firsts, Subsequence;
    assert MessagesOf(v.capture.log[..k]) == MessagesOf(v.capture.log)[..k];
    SubsequenceOfLonger(Firsts(v.sent), MessagesOf(v.capture.log[..k]), MessagesOf(v.capture.log));
    FirstsKeepsEachOnce(v.sent);
    forall m | m in v.sent ensures m in MessagesOf(v.capture.log) {
      SubsequenceContains(Firsts(v.sent), MessagesOf(v.capture.log), m);
    }
  }

  /** A message given up on had its full number of attempts, and is never sent again. */
  lemma {:induction false} PoisonedIsFinal(w: World, turns: seq<Turn>, i: nat, id: MessageId, options: Options)
    requires Fresh(w) && i <= |turns| && Poisoned(RunAll(w, turns[..i], options), id)
    ensures var u, v := RunAll(w, turns[..i], options), RunAll(w, turns, options);
            && Poisoned(v, id) && Recorded(u.failures, id).attempts >= options.maxPublishAttempts
            && u.sent <= v.sent && forall j :: |u.sent| <= j < |v.sent| ==> v.sent[j].id != id
  {
    FreshHolds(w, options.maxPublishAttempts);
    RunKeeps(w, turns[..i], options);
    RunKeeps(RunAll(w, turns[..i], options), turns[i..], options);
    RunsCompose(w, turns, i, options);
  }
}
