/** What the worker makes of the answers it gets: only a refusal counts against a message, a stop is obeyed,
 *  and the result of a cycle says what the cycle did.
 */
module OutboxHistory {
  import opened Calls
  import opened ChangeCapture
  import opened OutboxServices
  import opened OutboxReader
  import opened OutboxWorker
  import opened OutboxRuns

  // Refusals and stops.

  /** No message has more attempts against it than it was refused; what is given up on was refused as often as
   *  that takes; and nothing was done after a stop. */
  ghost predicate Fair(w: World, max: int) {
    && (forall id :: Recorded(w.failures, id).attempts <= w.heard.refused[id])
    && (forall id :: Poisoned(w, id) ==> w.heard.refused[id] >= max)
    && w.heard.late == 0
  }

  lemma {:induction false} AwaitIsFair(w: World, max: int)
    requires Fair(w, max)
    ensures Fair(Await(w).world, max) && Await(w).world.heard == w.heard
    ensures w.script == [] ==> Await(w) == Attempt(w, Fails(false, false))
  {
  }

  lemma {:induction false} SendIsFair(w: World, m: Envelope, max: int)
    requires Fair(w, max) && !w.heard.stopping
    ensures var p := Publish(w, m);
            && Fair(p.world, max) && p.world.failures == w.failures
            && (p.world.heard.stopping ==> p.outcome.Fails? && p.outcome.cancelled)
            && (p.outcome.Fails? && !p.outcome.cancelled ==>
                  p.world.script == [] || Recorded(w.failures, m.id).attempts < p.world.heard.refused[m.id])
            && (p.outcome.Fails? && p.outcome.cancelled ==> p.world.heard.stopping)
  {
    hide Evolve;
  }

  lemma {:induction false} RecordIsFair(w: World, id: MessageId, max: int)
    requires Fair(w, max) && !w.heard.stopping
    requires w.script == [] || Recorded(w.failures, id).attempts < w.heard.refused[id]
    ensures var f := RecordFailure(w, id);
            && Fair(f.world, max) && f.world.heard == w.heard
            && (f.value.Some? ==> id in f.world.failures && f.world.failures[id].attempts == f.value.value)
  {
    AwaitIsFair(w, max);
    assert Counted(w) == w;
    hide Await, Evolve;
    var f := RecordFailure(w, id);
    assert forall other :: other != id ==> Recorded(f.world.failures, other) == Recorded(w.failures, other);
  }

  lemma {:induction false} MarkIsFair(w: World, id: MessageId, max: int)
    requires Fair(w, max) && !w.heard.stopping && id in w.failures && w.failures[id].attempts >= max
    ensures var p := MarkPoisoned(w, id); Fair(p.world, max) && p.world.heard == w.heard
  {
    AwaitIsFair(w, max);
    assert Counted(w) == w;
    hide Await, Evolve;
    var p := MarkPoisoned(w, id);
    assert forall other :: other != id ==> Recorded(p.world.failures, other) == Recorded(w.failures, other);
  }

  lemma {:induction false} OneIsFair(w: World, m: Envelope, r: Result, max: int)
    requires Fair(w, max) && !w.heard.stopping
    ensures var p := PublishOne(w, m, r, max);
            Fair(p.world, max) && (p.world.heard.stopping ==> p.verdict.Breaks?)
  {
    var f := Get(w, m.id);
    AwaitIsFair(w, max);
    if f.value.Some? && !f.value.value.poisoned {
      var p := Publish(f.world, m);
      SendIsFair(f.world, m, max);
      if p.outcome.Fails? && !p.outcome.cancelled {
        RecordIsFair(p.world, m.id, max);
        var g := RecordFailure(p.world, m.id);
        if g.value.Some? && g.value.value >= max { MarkIsFair(g.world, m.id, max); }
      }
    }
    hide Fair, Publish, RecordFailure, MarkPoisoned, Await;
  }

  lemma {:induction false} PollIsFair(w: World, max: int)
    requires Fair(w, max) && !w.heard.stopping
    ensures var s := Poll(w); Fair(s.world, max) && (s.world.heard.stopping <==> !s.outcome.Succeeds?)
  {
    AwaitIsFair(w, max);
    hide Await;
  }

  lemma {:induction false} GroupIsFair(w: World, messages: seq<Envelope>, r: Result, max: int)
    requires Fair(w, max) && !w.heard.stopping
    ensures var p := PublishGroup(w, messages, r, max);
            Fair(p.world, max) && (p.world.heard.stopping ==> p.verdict.Breaks?)
    decreases |messages|
  {
    hide Fair, PublishOne, Poll;
    if messages != [] {
      var s := Poll(w);
      PollIsFair(w, max);
      if s.outcome.Succeeds? {
        OneIsFair(s.world, messages[0], r, max);
        var p := PublishOne(s.world, messages[0], r, max);
        if p.verdict.Goes? { GroupIsFair(p.world, messages[1..], p.result, max); }
      }
    }
  }

  lemma {:induction false} SaveIsFair(w: World, lsn: Position, floor: Position, max: int)
    requires Fair(w, max) && !w.heard.stopping
    ensures var s := Save(w, lsn, floor); Fair(s.world, max) && s.world.heard == w.heard
  {
    AwaitIsFair(w, max);
    assert Counted(w) == w;
    hide Await;
  }

  lemma {:induction false} GroupsAreFair(w: World, groups: seq<Group>, r: Result, floor: Position, max: int)
    requires Fair(w, max) && !w.heard.stopping
    ensures var p := PublishGroups(w, groups, r, floor, max);
            Fair(p.world, max) && (p.world.heard.stopping ==> p.verdict.Breaks?)
    decreases |groups|
  {
    hide Fair, PublishGroup, Save;
    if groups != [] {
      var p := PublishGroup(w, groups[0].messages, r, max);
      GroupIsFair(w, groups[0].messages, r, max);
      if p.verdict.Goes? {
        SaveIsFair(p.world, groups[0].lsn, floor, max);
        var s := Save(p.world, groups[0].lsn, floor);
        if s.value.Some? { GroupsAreFair(s.world, groups[1..], p.result, floor, max); }
      }
    }
  }

  /** A read moves only the clock. */
  lemma {:induction false} ReadIsFair(w: World, after: Position, batchSize: int, max: int)
    requires Fair(w, max)
    ensures var v := ReadBatch(w, after, batchSize).0;
            Fair(v, max) && v.heard == w.heard && v.failures == w.failures && v.accepted == w.accepted
  {
    ReadOnlyReads(w, after, batchSize);
    hide ReadBatch;
  }

  lemma {:induction false} TurnIsFair(w: World, turn: Turn, options: Options)
    requires Fair(w, options.maxPublishAttempts)
    ensures Fair(Take(w, turn, options).world, options.maxPublishAttempts)
  {
    var max := options.maxPublishAttempts;
    if turn.Wake? {
      var v := Woken(w, turn.fates);
      AwaitIsFair(v, max);
      var l := Load(v);
      if l.value.Some? {
        ReadIsFair(l.world, l.value.value, options.batchSize, max);
        var (u, r) := ReadBatch(l.world, l.value.value, options.batchSize);
        if r.Batch? && r.groups != [] {
          GroupsAreFair(u, r.groups, Result(Processed, 0, 0), r.floor, max);
        }
      }
      hide Await, ReadBatch, PublishGroups;
    }
  }

  lemma {:induction false} RunIsFair(w: World, turns: seq<Turn>, options: Options)
    requires Fair(w, options.maxPublishAttempts)
    ensures Fair(RunAll(w, turns, options), options.maxPublishAttempts)
    decreases |turns|
  {
    if turns != [] {
      TurnIsFair(w, turns[0], options);
      hide Fair, Take;
      RunIsFair(Take(w, turns[0], options).world, turns[1..], options);
    }
  }

  /** Over every run: a message never has more attempts against it than the broker refused it, and one that was
   *  given up on was refused at least as often as the configuration asks. A publish that was told to stop, or
   *  ran into its deadline, is not held against its message. */
  lemma {:induction false} OnlyRefusalsCount(w: World, turns: seq<Turn>, options: Options, id: MessageId)
    requires Fresh(w)
    ensures var v := RunAll(w, turns, options);
            && Recorded(v.failures, id).attempts <= v.heard.refused[id]
            && (Poisoned(v, id) ==> v.heard.refused[id] >= options.maxPublishAttempts)
  {
    RunIsFair(w, turns, options);
    hide RunAll;
  }

  /** Over every run: once a cycle is told to stop, by its poll or by a cancelled publish, it sends nothing more,
   *  records nothing and does not move the position. */
  lemma {:induction false} AStopIsObeyed(w: World, turns: seq<Turn>, options: Options)
    requires Fresh(w)
    ensures RunAll(w, turns, options).heard.late == 0
  {
    RunIsFair(w, turns, options);
    hide RunAll;
  }

  /** No call of the checkpoint store leaves it without a position, if it had one; a confirmed save leaves the very
   *  position it was given. */
  lemma {:induction false} APositionIsNeverLost(w: World, lsn: Position, floor: Position)
    ensures var s := Save(w, lsn, floor);
            && (w.checkpoint != 0 ==> s.world.checkpoint != 0)
            && (s.value.Some? ==> s.world.checkpoint == lsn != 0)
  {
  }

  // What a cycle reports.

  function GivenUp(w: World): set<MessageId> {
    set id | id in w.failures && w.failures[id].poisoned
  }

  /** From `before` to `after` the counters grew by what happened from w to v. */
  ghost predicate Accounts(w: World, v: World, before: Result, after: Result, verdict: Verdict) {
    && |v.accepted| == |w.accepted| + after.published - before.published
    && (!verdict.Breaks? ==>
          && |GivenUp(v)| == |GivenUp(w)| + after.poisoned - before.poisoned
          && |v.heard.refused|
             == |w.heard.refused| + after.poisoned - before.poisoned + if verdict.Stops? then 1 else 0)
  }

  predicate Unchanged(w: World, v: World) {
    v.accepted == w.accepted && v.failures == w.failures && v.heard.refused == w.heard.refused
  }

  lemma {:induction false} UnchangedAccounts(w: World, v: World, r: Result, verdict: Verdict)
    requires Unchanged(w, v) && !verdict.Stops?
    ensures Accounts(w, v, r, r, verdict)
  {
  }

  lemma {:induction false} AccountsJoin(
    u: World, v: World, w: World, a: Result, b: Result, c: Result, verdict: Verdict)
    requires Accounts(u, v, a, b, Goes) && Accounts(v, w, b, c, verdict)
    ensures Accounts(u, w, a, c, verdict)
  {
    hide GivenUp;
  }

  lemma {:induction false} AwaitUnchanged(w: World)
    ensures Unchanged(w, Await(w).world) && Unchanged(w, Await(Counted(w)).world)
  {
    hide Evolve;
  }

  lemma {:induction false} MarkGivesUpOne(w: World, id: MessageId)
    ensures var p := MarkPoisoned(w, id);
            && p.world.accepted == w.accepted && p.world.heard.refused == w.heard.refused
            && (p.value.Some? && id in w.failures && !w.failures[id].poisoned ==> |GivenUp(p.world)| == |GivenUp(w)| + 1)
  {
    AwaitUnchanged(w);
    hide Await;
    var p := MarkPoisoned(w, id);
    if p.value.Some? && id in w.failures && !w.failures[id].poisoned {
      assert GivenUp(p.world) == GivenUp(w) + {id};
    }
  }

  lemma {:induction false} RecordGivesUpNone(w: World, id: MessageId)
    ensures var f := RecordFailure(w, id);
            && f.world.accepted == w.accepted && f.world.heard.refused == w.heard.refused
            && GivenUp(f.world) == GivenUp(w)
            && (f.value.Some? ==> id in f.world.failures && f.world.failures[id].poisoned == Poisoned(w, id))
            && (w.script == [] ==> f.value.None?)
  {
    AwaitUnchanged(w);
    hide Unchanged, Evolve;
  }

  lemma {:induction false} SendAnswers(w: World, m: Envelope)
    ensures var p := Publish(w, m);
            && p.world.failures == w.failures
            && |p.world.accepted| == |w.accepted| + (if p.outcome.Succeeds? then 1 else 0)
            && (p.outcome.Fails? && !p.outcome.cancelled ==>
                  p.world.script == [] || |p.world.heard.refused| == |w.heard.refused| + 1)
            && (p.outcome.Succeeds? ==> p.world.heard.refused == w.heard.refused)
  {
    AwaitUnchanged(w);
    hide Evolve;
  }

  lemma {:induction false} RefusalAccounts(w: World, m: Envelope, r: Result, max: int)
    requires !Poisoned(w, m.id)
    ensures var p := Refuse(w, m, r, max);
            && p.world.accepted == w.accepted && p.world.heard.refused == w.heard.refused
            && p.result == r.(poisoned := p.result.poisoned) && p.result.poisoned == r.poisoned + (if p.verdict.Goes? then 1 else 0)
            && (!p.verdict.Breaks? ==>
                  |GivenUp(p.world)| == |GivenUp(w)| + (if p.verdict.Goes? then 1 else 0) && w.script != [])
  {
    RecordGivesUpNone(w, m.id);
    var f := RecordFailure(w, m.id);
    MarkGivesUpOne(f.world, m.id);
    hide RecordFailure, MarkPoisoned, GivenUp;
  }

  lemma {:induction false} OneAccounts(w: World, m: Envelope, r: Result, max: int)
    ensures var p := PublishOne(w, m, r, max);
            Accounts(w, p.world, r, p.result, p.verdict) && p.result.status == r.status
  {
    var f := Get(w, m.id);
    AwaitUnchanged(w);
    if f.value.Some? && !f.value.value.poisoned {
      SendAnswers(f.world, m);
      var p := Publish(f.world, m);
      if p.outcome.Fails? && !p.outcome.cancelled { RefusalAccounts(p.world, m, r, max); }
    }
    hide Publish, Refuse, Await;
  }

  lemma {:induction false} GroupAccounts(w: World, messages: seq<Envelope>, r: Result, max: int)
    ensures var p := PublishGroup(w, messages, r, max);
            Accounts(w, p.world, r, p.result, p.verdict) && p.result.status == r.status
    decreases |messages|
  {
    AwaitUnchanged(w);
    if messages == [] {
      UnchangedAccounts(w, w, r, Goes);
    } else {
      var s := Poll(w);
      UnchangedAccounts(w, s.world, r, Breaks);
      UnchangedAccounts(w, s.world, r, Goes);
      hide Accounts, PublishOne, Poll, Await;
      if s.outcome.Succeeds? {
        var p := PublishOne(s.world, messages[0], r, max);
        OneAccounts(s.world, messages[0], r, max);
        AccountsJoin(w, s.world, p.world, r, r, p.result, p.verdict);
        if p.verdict.Goes? {
          GroupAccounts(p.world, messages[1..], p.result, max);
          var q := PublishGroup(p.world, messages[1..], p.result, max);
          AccountsJoin(w, p.world, q.world, r, p.result, q.result, q.verdict);
        }
      }
    }
  }

  lemma {:induction false} GroupsAccount(w: World, groups: seq<Group>, r: Result, floor: Position, max: int)
    requires r.status == Processed
    ensures var p := PublishGroups(w, groups, r, floor, max);
            && Accounts(w, p.world, r, p.result, p.verdict)
            && p.result.status == if p.verdict.Stops? then Faulted else Processed
    decreases |groups|
  {
    if groups == [] {
      UnchangedAccounts(w, w, r, Goes);
    } else {
      var p := PublishGroup(w, groups[0].messages, r, max);
      GroupAccounts(w, groups[0].messages, r, max);
      if p.verdict.Goes? {
        var s := Save(p.world, groups[0].lsn, floor);
        AwaitUnchanged(p.world);
        UnchangedAccounts(p.world, s.world, p.result, Breaks);
        UnchangedAccounts(p.world, s.world, p.result, Goes);
        hide Accounts, Save, PublishGroup, Await;
        AccountsJoin(w, p.world, s.world, r, p.result, p.result, Breaks);
        AccountsJoin(w, p.world, s.world, r, p.result, p.result, Goes);
        if s.value.Some? {
          GroupsAccount(s.world, groups[1..], p.result, floor, max);
          var q := PublishGroups(s.world, groups[1..], p.result, floor, max);
          AccountsJoin(w, s.world, q.world, r, p.result, q.result, q.verdict);
        }
      }
    }
  }

  /** A cycle reports what it did: `published` is the number of publishes the broker confirmed in it. If it does
   *  not end in an error, `poisoned` is the number of messages it gave up on, and it faults exactly when it was
   *  refused once more than that: the message it stopped at. An idle cycle did nothing. */
  lemma {:induction false} ResultTellsTheCycle(w: World, options: Options)
    ensures var p := Cycle(w, options);
            var v, r := p.world, p.result;
            && |v.accepted| == |w.accepted| + r.published
            && (!p.verdict.Breaks? ==>
                  && |GivenUp(v)| == |GivenUp(w)| + r.poisoned
                  && |v.heard.refused| == |w.heard.refused| + r.poisoned + if r.status.Faulted? then 1 else 0)
            && (r.status.Faulted? <==> p.verdict.Stops?)
            && (r.status.Idle? ==> v.sent == w.sent && v.failures == w.failures && v.checkpoint == w.checkpoint)
  {
    var l := Load(w);
    AwaitUnchanged(w);
    if l.value.Some? {
      ReadOnlyReads(l.world, l.value.value, options.batchSize);
      var (v, r) := ReadBatch(l.world, l.value.value, options.batchSize);
      if r.Batch? && r.groups != [] {
        GroupsAccount(v, r.groups, Result(Processed, 0, 0), r.floor, options.maxPublishAttempts);
      }
    }
    hide ReadBatch, PublishGroups, GivenUp, Evolve;
  }

  lemma {:induction false} ReadOnlyReads(w: World, after: Position, batchSize: int)
    ensures var v := ReadBatch(w, after, batchSize).0; v == w.(capture := v.capture, script := v.script)
  {
    hide Evolve, Between;
  }

  /** In every reachable state: a cycle without an error is idle exactly when it leaves the position where it was. */
  lemma {:induction false} IdleIffNothingPassed(w: World, turns: seq<Turn>, fates: seq<Fate>, options: Options)
    requires Fresh(w)
    ensures var u := RunAll(w, turns, options);
            var p := Take(u, Wake(fates), options);
            p.verdict.Goes? ==> (p.result.status.Idle? <==> p.world.checkpoint == u.checkpoint)
  {
    hide RunAll, Fresh, Cycle, Invariant;
    FreshHolds(w, options.maxPublishAttempts);
    RunKeeps(w, turns, options);
    var u := RunAll(w, turns, options);
    WakingKeeps(u, fates, options.maxPublishAttempts);
    PassingIsNotIdle(Woken(u, fates), options);
  }

  lemma {:induction false} PassingIsNotIdle(w: World, options: Options)
    requires Invariant(w, options.maxPublishAttempts)
    ensures var p := Cycle(w, options); p.verdict.Goes? ==> (p.result.status.Idle? <==> p.world.checkpoint == w.checkpoint)
  {
    var max := options.maxPublishAttempts;
    var l := Load(w);
    AwaitIsOnlyTime(w);
    var _ := TimeKeepsFrontier(w, l.world, l.world, max);
    ReadOnlyReads(l.world, l.world.checkpoint, options.batchSize);
    var (v, r) := ReadBatch(l.world, l.world.checkpoint, options.batchSize);
    if l.value.Some? && r.Batch? && r.groups != [] {
      var base, at, end, k := ReadStands(l.world, options.batchSize, max);
      var start := Result(Processed, 0, 0);
      PublishGroupsKeep(v, r.groups, start, r.floor, max, base, at, end, k);
      GroupsAccount(v, r.groups, start, r.floor, max);
      LastIsAbove(v.capture.log, r.groups, at, end);
    }
    hide ReadBatch, PublishGroups, Invariant, Standing, OnLog, Accounts, Await;
  }

  lemma {:induction false} LastIsAbove(log: seq<Row>, groups: seq<Group>, at: nat, end: nat)
    requires OnLog(log, groups, at, end) && groups != []
    ensures groups[0].lsn <= groups[|groups| - 1].lsn
  {
  }

  // When nothing goes wrong.

  /** Every call succeeds, and cleanup stays away. */
  ghost predicate Calm(fates: seq<Fate>) {
    forall i :: 0 <= i < |fates| ==>
      fates[i].outcome.Succeeds? && forall j :: 0 <= j < |fates[i].changes| ==> fates[i].changes[j].Commit?
  }

  lemma {:induction false} CommitsLeaveFloor(c: Capture, changes: seq<Change>)
    requires forall j :: 0 <= j < |changes| ==> changes[j].Commit?
    ensures Evolve(c, changes).floor == c.floor
    decreases |changes|
  {
    if changes != [] { CommitsLeaveFloor(Apply(c, changes[0]), changes[1..]); }
  }

  /** What a call of a calm script leaves, as long as the script lasts. */
  ghost predicate StaysCalm(w: World, v: World) {
    Calm(v.script) && v.capture.floor == w.capture.floor && (w.script == [] ==> v.script == [])
  }

  lemma {:induction false} CalmAwait(w: World)
    requires Calm(w.script)
    ensures StaysCalm(w, Await(w).world) && (w.script != [] ==> Await(w).outcome.Succeeds?)
  {
    if w.script != [] { CommitsLeaveFloor(w.capture, w.script[0].changes); }
    hide Evolve;
  }

  lemma {:induction false} CalmOne(w: World, m: Envelope, r: Result, max: int)
    requires Calm(w.script)
    ensures var p := PublishOne(w, m, r, max);
            && Calm(p.world.script)
            && (p.world.script != [] ==> w.script != [] && p.verdict.Goes? && p.result.poisoned == r.poisoned)
  {
    var f := Get(w, m.id);
    CalmAwait(w);
    CalmAwait(Counted(f.world));
    var p := Publish(f.world, m);
    if p.outcome.Fails? { CalmRefuse(p.world, m, r, max); }
    hide Await, Refuse;
  }

  lemma {:induction false} CalmRefuse(w: World, m: Envelope, r: Result, max: int)
    requires Calm(w.script)
    ensures var p := Refuse(w, m, r, max); Calm(p.world.script) && (p.world.script != [] ==> w.script != [])
  {
    var f := RecordFailure(w, m.id);
    CalmAwait(Counted(w));
    CalmAwait(Counted(f.world));
    hide Await;
  }

  lemma {:induction false} CalmGroup(w: World, messages: seq<Envelope>, r: Result, max: int)
    requires Calm(w.script)
    ensures var p := PublishGroup(w, messages, r, max);
            && Calm(p.world.script)
            && (p.world.script != [] ==> w.script != [] && p.verdict.Goes? && p.result.poisoned == r.poisoned)
    decreases |messages|
  {
    if messages != [] {
      var s := Poll(w);
      CalmAwait(w);
      CalmOne(s.world, messages[0], r, max);
      hide PublishOne, Await;
      var p := PublishOne(s.world, messages[0], r, max);
      if s.outcome.Succeeds? && p.verdict.Goes? { CalmGroup(p.world, messages[1..], p.result, max); }
    }
  }

  lemma {:induction false} CalmGroups(w: World, groups: seq<Group>, r: Result, floor: Position, max: int)
    requires Calm(w.script) && forall i :: 0 <= i < |groups| ==> groups[i].lsn != 0
    ensures var p := PublishGroups(w, groups, r, floor, max);
            && Calm(p.world.script)
            && (p.world.script != [] ==> w.script != [] && p.verdict.Goes? && p.result.poisoned == r.poisoned)
    decreases |groups|
  {
    if groups != [] {
      var p := PublishGroup(w, groups[0].messages, r, max);
      CalmGroup(w, groups[0].messages, r, max);
      CalmAwait(Counted(p.world));
      hide PublishGroup, Await;
      var s := Save(p.world, groups[0].lsn, floor);
      if s.value.Some? { CalmGroups(s.world, groups[1..], p.result, floor, max); }
    }
  }

  lemma {:induction false} CalmSelect(w: World, from: Position, top: Position, floor: Position, batchSize: int)
    requires Calm(w.script) && batchSize > 0 && from >= w.capture.floor
    ensures var (v, r) := Select(w, from, top, floor, batchSize);
            Calm(v.script) && (v.script != [] ==> w.script != [] && r.Batch?)
  {
    var c := Changes(w, from, top, batchSize + 1);
    CalmAwait(w);
    BetweenInRange(Await(w).world.capture.log, from, top);
    CalmAwait(c.world);
    hide Await, Between, GroupsOf, Without;
  }

  /** A read answers with the rows, unless the table is not ready or has lost rows the reader had not seen. */
  lemma {:induction false} CalmRead(w: World, after: Position, batchSize: int)
    requires Calm(w.script)
    ensures var (v, r) := ReadBatch(w, after, batchSize);
            var c := Await(w).world.capture;
            && Calm(v.script)
            && (v.script != [] && batchSize <= 0 ==> r.Unreadable?)
            && (v.script != [] && batchSize > 0 ==>
                  && w.script != [] && !r.Unreadable?
                  && (r.NotReady? <==> c.floor == 0 || c.top == 0)
                  && (r.Expired? <==> c.floor != 0 && c.top != 0 && after != 0 && after + 1 < c.floor))
  {
    var b := ReadBounds(w, after).world;
    var from := if after == 0 then b.capture.floor else after + 1;
    CalmAwait(w);
    if batchSize > 0 && from >= b.capture.floor { CalmSelect(b, from, b.capture.top, b.capture.floor, batchSize); }
    hide Await, Select;
  }

  lemma {:induction false} PositionsOfCut(c: Capture, after: Position, k: nat)
    requires WellFormed(c) && k <= |Readable(c, after)|
    ensures var groups := GroupsOf(Readable(c, after)[..k]); forall i :: 0 <= i < |groups| ==> groups[i].lsn != 0
  {
    hide GroupsOf, Between;
    var rows := Readable(c, after);
    var from := if after == 0 then c.floor else after + 1;
    BetweenIsOfLog(c.log, from, c.top);
    BetweenStaysSorted(c.log, from, c.top);
    GroupsIncrease(rows[..k]);
    GroupsEnd(rows[..k]);
    if k > 0 { assert rows[0] in rows; }
  }

  lemma {:induction false} PositionsOfBatch(w: World, after: Position, batchSize: int)
    requires WellFormed(w.capture)
    ensures var r := ReadBatch(w, after, batchSize).1;
            r.Batch? ==> forall i :: 0 <= i < |r.groups| ==> r.groups[i].lsn != 0
  {
    hide ReadBatch, GroupsOf, Readable, Extends, Await;
    var k := ReadReturnsWholeTransactions(w, after, batchSize);
    if ReadBatch(w, after, batchSize).1.Batch? { PositionsOfCut(Await(w).world.capture, after, k); }
  }

  /** A cycle in which every call succeeds, and which cleanup does not disturb, ends in an error exactly when it
   *  cannot read: an impossible batch size, a table that is not ready, or rows lost behind the checkpoint.
   *  Otherwise it goes through, and none of its messages was held against it. */
  lemma {:induction false} CalmCycleGoesThrough(w: World, options: Options)
    requires WellFormed(w.capture) && Calm(w.script) && Cycle(w, options).world.script != []
    ensures var p := Cycle(w, options);
            var c := Await(Load(w).world).world.capture;
            && (p.verdict.Breaks? <==>
                  || options.batchSize <= 0 || c.floor == 0 || c.top == 0
                  || (w.checkpoint != 0 && w.checkpoint + 1 < c.floor))
            && !p.verdict.Stops? && p.result.poisoned == 0
  {
    var l := Load(w);
    CalmAwait(w);
    AwaitIsOnlyTime(w);
    var (v, r) := ReadBatch(l.world, l.world.checkpoint, options.batchSize);
    CalmRead(l.world, l.world.checkpoint, options.batchSize);
    PositionsOfBatch(l.world, l.world.checkpoint, options.batchSize);
    if r.Batch? && r.groups != [] {
      CalmGroups(v, r.groups, Result(Processed, 0, 0), r.floor, options.maxPublishAttempts);
    }
    hide ReadBatch, PublishGroups, Await, Calm, WellFormed, Extends;
  }
}
