/** Everything the outbox worker talks to, and every way a call to it can end.
 *
 *  Each external call consumes one Fate: what happened to the change table while the call was on
 *  its way, and how the call ended. A call can fail and still have taken effect (`took`), which is
 *  how a lost acknowledgement looks from the caller. When the script is used up every call fails
 *  without effect: since the worker stops at the first failed call to a store, that is a crash,
 *  and scripts of every length put a crash between any two calls.
 */
module OutboxServices {
  import opened Calls
  import opened ChangeCapture

  datatype Fate = Fate(changes: seq<Change>, outcome: Outcome)

  datatype Failure = Failure(attempts: nat, poisoned: bool)

  /** `refused` holds one copy of an id for every publish the broker refused: a call that was told to stop is
   *  no refusal, and a crash is no answer. `stopping` says that the cycle was told to stop, and `late` counts
   *  the messages it sent and the writes it made nevertheless. */
  datatype Heard = Heard(refused: multiset<MessageId>, stopping: bool, late: nat)

  /** The tables, the broker's history and the script of what is still to happen.
   *
   *  What follows is kept only to state properties, and no code reads it: `origin` is the retention
   *  floor of the read behind the first saved checkpoint, `accepted` holds one copy of a message for
   *  every confirmed publish, and `heard` is what else the worker was told. */
  datatype World = World(
    capture: Capture,
    checkpoint: Position,
    origin: Position,
    failures: map<MessageId, Failure>,
    sent: seq<Envelope>,
    accepted: multiset<Envelope>,
    heard: Heard,
    script: seq<Fate>)

  datatype Reply<T> = Reply(world: World, value: Option<T>)

  datatype Attempt = Attempt(world: World, outcome: Outcome)

  /** Time passes until the next call is decided. */
  function Await(w: World): Attempt {
    if w.script == [] then Attempt(w, Fails(false, false))
    else Attempt(w.(capture := Evolve(w.capture, w.script[0].changes), script := w.script[1..]), w.script[0].outcome)
  }

  /** One more write or message, late if the cycle was told to stop before. */
  function Counted(w: World): World {
    w.(heard := w.heard.(late := if w.heard.stopping then w.heard.late + 1 else w.heard.late))
  }

  /** What a worker that could not be told before is told now. */
  function Told(h: Heard, stop: bool): Heard {
    h.(stopping := h.stopping || stop)
  }

  function Answer<T>(a: Attempt, value: T): Reply<T> {
    Reply(a.world, if a.outcome.Succeeds? then Some(value) else None)
  }

  /** Asks whether to stop. */
  function Poll(w: World): Attempt {
    var a := Await(w);
    Attempt(a.world.(heard := Told(w.heard, !a.outcome.Succeeds?)), a.outcome)
  }

  // The checkpoint store.

  function Load(w: World): Reply<Position> {
    var a := Await(w);
    Answer(a, a.world.checkpoint)
  }

  function Save(w: World, lsn: Position, floor: Position): Reply<()> {
    if lsn == 0 then Reply(w, None)
    else
      var a := Await(Counted(w));
      var v := if !Effective(a.outcome) then a.world
               else a.world.(checkpoint := lsn, origin := if a.world.checkpoint == 0 then floor else a.world.origin);
      Answer(Attempt(v, a.outcome), ())
  }

  // The failure store.

  function Recorded(failures: map<MessageId, Failure>, id: MessageId): Failure {
    if id in failures then failures[id] else Failure(0, false)
  }

  function Get(w: World, id: MessageId): Reply<Failure> {
    var a := Await(w);
    Answer(a, Recorded(a.world.failures, id))
  }

  function RecordFailure(w: World, id: MessageId): Reply<nat> {
    var a := Await(Counted(w));
    var before := Recorded(a.world.failures, id);
    var v := if !Effective(a.outcome) then a.world
             else a.world.(failures := a.world.failures[id := before.(attempts := before.attempts + 1)]);
    Answer(Attempt(v, a.outcome), before.attempts + 1)
  }

  function MarkPoisoned(w: World, id: MessageId): Reply<()> {
    var a := Await(Counted(w));
    var v := if !Effective(a.outcome) || id !in a.world.failures then a.world
             else a.world.(failures := a.world.failures[id := a.world.failures[id].(poisoned := true)]);
    Answer(Attempt(v, a.outcome), ())
  }

  // The broker. A refused publish may have reached it all the same.

  function Answered(h: Heard, id: MessageId, o: Outcome): Heard {
    if o.Succeeds? then h
    else if o.cancelled then Told(h, true)
    else h.(refused := h.refused + multiset{id})
  }

  function Publish(w: World, message: Envelope): Attempt {
    var a := Await(Counted(w));
    Attempt(a.world.(
        sent := if Effective(a.outcome) then a.world.sent + [message] else a.world.sent,
        accepted := if a.outcome.Succeeds? then a.world.accepted + multiset{message} else a.world.accepted,
        heard := if w.script == [] then a.world.heard else Answered(a.world.heard, message.id, a.outcome)),
      a.outcome)
  }

  // The change table.

  /** Both ends of what is retained, and the position after the reader's own, if it has one. */
  datatype Bounds = Bounds(floor: Position, top: Position, next: Position)

  function ReadBounds(w: World, after: Position): Reply<Bounds> {
    var a := Await(w);
    Answer(a, Bounds(a.world.capture.floor, a.world.capture.top, if after == 0 then 0 else after + 1))
  }

  /** The change function refuses a range that starts below what is retained. A limit of zero reads
   *  the whole range. */
  function Changes(w: World, from: Position, to: Position, limit: nat): Reply<seq<Row>> {
    var a := Await(w);
    var rows := Between(a.world.capture.log, from, to);
    if from < a.world.capture.floor then Reply(a.world, None)
    else Answer(a, if 0 < limit < |rows| then rows[..limit] else rows)
  }
}
