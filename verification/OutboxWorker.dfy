/** One cycle of the outbox worker as a function of the world it runs in.
 *
 *  The imperative worker (OutboxProcessor) is proved equal to this function, and OutboxRuns proves
 *  what holds over every sequence of cycles.
 */
module OutboxWorker {
  import opened Calls
  import opened ChangeCapture
  import opened OutboxServices
  import opened OutboxReader

  datatype Status = Idle | Processed | Faulted

  datatype Result = Result(status: Status, published: nat, poisoned: nat)

  datatype Options = Options(batchSize: int, maxPublishAttempts: int)

  /** Whether the cycle goes on, stops because a message was refused, or ends in an error. */
  datatype Verdict = Goes | Stops | Breaks

  datatype Progress = Progress(world: World, result: Result, verdict: Verdict)

  function Refuse(w: World, message: Envelope, result: Result, max: int): Progress {
    var f := RecordFailure(w, message.id);
    if f.value.None? then Progress(f.world, result, Breaks)
    else if f.value.value >= max then
      var p := MarkPoisoned(f.world, message.id);
      if p.value.None? then Progress(p.world, result, Breaks)
      else Progress(p.world, result.(poisoned := result.poisoned + 1), Goes)
    else Progress(f.world, result, Stops)
  }

  function PublishOne(w: World, message: Envelope, result: Result, max: int): Progress {
    var f := Get(w, message.id);
    if f.value.None? then Progress(f.world, result, Breaks)
    else if f.value.value.poisoned then Progress(f.world, result, Goes)
    else
      var p := Publish(f.world, message);
      if p.outcome.Succeeds? then Progress(p.world, result.(published := result.published + 1), Goes)
      else if p.outcome.cancelled then Progress(p.world, result, Breaks)
      else Refuse(p.world, message, result, max)
  }

  /** Before each message the worker asks whether it was told to stop. */
  function PublishGroup(w: World, messages: seq<Envelope>, result: Result, max: int): Progress
    decreases |messages|
  {
    if messages == [] then Progress(w, result, Goes)
    else
      var s := Poll(w);
      if !s.outcome.Succeeds? then Progress(s.world, result, Breaks)
      else
        var p := PublishOne(s.world, messages[0], result, max);
        if p.verdict.Goes? then PublishGroup(p.world, messages[1..], p.result, max) else p
  }

  function PublishGroups(w: World, groups: seq<Group>, result: Result, floor: Position, max: int): Progress
    decreases |groups|
  {
    if groups == [] then Progress(w, result, Goes)
    else
      var p := PublishGroup(w, groups[0].messages, result, max);
      if p.verdict.Stops? then p.(result := p.result.(status := Faulted))
      else if p.verdict.Breaks? then p
      else
        var s := Save(p.world, groups[0].lsn, floor);
        if s.value.None? then Progress(s.world, p.result, Breaks)
        else PublishGroups(s.world, groups[1..], p.result, floor, max)
  }

  function Cycle(w: World, options: Options): Progress {
    var l := Load(w);
    if l.value.None? then Progress(l.world, Result(Idle, 0, 0), Breaks)
    else
      var (v, r) := ReadBatch(l.world, l.value.value, options.batchSize);
      if !r.Batch? then Progress(v, Result(Idle, 0, 0), Breaks)
      else if r.groups == [] then Progress(v, Result(Idle, 0, 0), Goes)
      else PublishGroups(v, r.groups, Result(Processed, 0, 0), r.floor, options.maxPublishAttempts)
  }
}
