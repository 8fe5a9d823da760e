/** SQL Server's change table for the outbox, as far as the worker can observe it.
 *
 *  `log` is everything ever captured, in order; the server only answers for the part at or above
 *  the retention floor. Two things happen to the table behind the worker's back: a transaction
 *  commits, with all its rows appearing at once above every earlier position, and cleanup raises
 *  the floor. A change that would break those rules does not happen.
 */
module ChangeCapture {

  type Position = nat  // the number a ten-byte LSN spells; 0 is "no position"
  type MessageId = nat

  datatype Envelope = Envelope(id: MessageId, content: string)

  datatype Row = Row(lsn: Position, message: Envelope)

  datatype Capture = Capture(log: seq<Row>, floor: Position, top: Position)

  datatype Change = Commit(lsn: Position, messages: seq<Envelope>) | Cleanup(floor: Position)

  ghost predicate WellFormed(c: Capture) {
    && (forall i :: 0 <= i < |c.log| ==> 0 < c.log[i].lsn <= c.top)
    && Sorted(c.log)
    && (forall i, j :: 0 <= i < j < |c.log| ==> c.log[i].message.id != c.log[j].message.id)
  }

  ghost predicate Sorted(rows: seq<Row>) {
    forall i, j :: 0 <= i < j < |rows| ==> rows[i].lsn <= rows[j].lsn
  }

  function RowsOf(lsn: Position, messages: seq<Envelope>): (rows: seq<Row>)
    ensures |rows| == |messages|
    ensures forall i :: 0 <= i < |rows| ==> rows[i] == Row(lsn, messages[i])
  {
    seq(|messages|, i requires 0 <= i < |messages| => Row(lsn, messages[i]))
  }

  /** Ids are fresh UUIDs: no id repeats within the transaction or in what was captured before. */
  predicate FreshIds(log: seq<Row>, messages: seq<Envelope>) {
    && (forall i, j :: 0 <= i < j < |messages| ==> messages[i].id != messages[j].id)
    && (forall i, q :: 0 <= i < |messages| && 0 <= q < |log| ==> messages[i].id != log[q].message.id)
  }

  function Apply(c: Capture, change: Change): Capture {
    match change
    case Commit(lsn, messages) =>
      if lsn > c.top && FreshIds(c.log, messages)
      then Capture(c.log + RowsOf(lsn, messages), c.floor, lsn)
      else c
    case Cleanup(floor) => if floor > c.floor then c.(floor := floor) else c
  }

  function Evolve(c: Capture, changes: seq<Change>): Capture
    decreases |changes|
  {
    if changes == [] then c else Evolve(Apply(c, changes[0]), changes[1..])
  }

  /** What any amount of time does to the table: history only grows, above every position so far. */
  ghost predicate Extends(c: Capture, d: Capture) {
    && c.log <= d.log && c.floor <= d.floor && c.top <= d.top
    && (forall q :: |c.log| <= q < |d.log| ==> d.log[q].lsn > c.top)
  }

  lemma {:induction false} ExtendsTransitively(c: Capture, d: Capture, e: Capture)
    requires Extends(c, d) && Extends(d, e)
    ensures Extends(c, e)
  {
    forall q | |c.log| <= q < |e.log| ensures e.log[q].lsn > c.top {
      if q < |d.log| { assert e.log[q] == d.log[q]; }
    }
  }

  lemma {:induction false} EvolveExtends(c: Capture, changes: seq<Change>)
    requires WellFormed(c)
    ensures WellFormed(Evolve(c, changes)) && Extends(c, Evolve(c, changes))
    decreases |changes|
  {
    if changes != [] {
      var d := Apply(c, changes[0]);
      EvolveExtends(d, changes[1..]);
      ExtendsTransitively(c, d, Evolve(c, changes));
    }
  }

  /** The rows the change function selects, in its order. */
  function Between(rows: seq<Row>, from: Position, to: Position): seq<Row> {
    if rows == [] then []
    else (if from <= rows[0].lsn <= to then [rows[0]] else []) + Between(rows[1..], from, to)
  }

  /** How many leading rows lie below a position. */
  function Below(rows: seq<Row>, lsn: Position): (n: nat)
    ensures n <= |rows|
    ensures forall q :: 0 <= q < n ==> rows[q].lsn < lsn
    ensures n < |rows| ==> rows[n].lsn >= lsn
  {
    if rows == [] || rows[0].lsn >= lsn then 0
    else
      var n := Below(rows[1..], lsn);
      assert forall q :: 1 <= q < n + 1 ==> rows[q] == rows[1..][q - 1];
      n + 1
  }

  lemma {:induction false} BetweenOfConcat(a: seq<Row>, b: seq<Row>, from: Position, to: Position)
    ensures Between(a + b, from, to) == Between(a, from, to) + Between(b, from, to)
  {
    if a == [] {
      assert a + b == b;
    } else {
      assert (a + b)[1..] == a[1..] + b;
      BetweenOfConcat(a[1..], b, from, to);
    }
  }

  lemma {:induction false} BetweenOfInside(rows: seq<Row>, from: Position, to: Position)
    requires forall q :: 0 <= q < |rows| ==> from <= rows[q].lsn <= to
    ensures Between(rows, from, to) == rows
  {
    if rows != [] { BetweenOfInside(rows[1..], from, to); }
  }

  lemma {:induction false} BetweenOfOutside(rows: seq<Row>, from: Position, to: Position)
    requires forall q :: 0 <= q < |rows| ==> !(from <= rows[q].lsn <= to)
    ensures Between(rows, from, to) == []
  {
    if rows != [] { BetweenOfOutside(rows[1..], from, to); }
  }

  lemma {:induction false} BetweenDropsFront(rows: seq<Row>, from: Position, to: Position, i: nat)
    requires i <= |rows|
    requires forall q :: 0 <= q < i ==> rows[q].lsn < from
    ensures Between(rows, from, to) == Between(rows[i..], from, to)
  {
    BetweenOfOutside(rows[..i], from, to);
    BetweenOfConcat(rows[..i], rows[i..], from, to);
    assert rows == rows[..i] + rows[i..];
  }

  lemma {:induction false} BetweenDropsBack(rows: seq<Row>, from: Position, to: Position, j: nat)
    requires j <= |rows|
    requires forall q :: j <= q < |rows| ==> to < rows[q].lsn
    ensures Between(rows, from, to) == Between(rows[..j], from, to)
  {
    BetweenOfOutside(rows[j..], from, to);
    BetweenOfConcat(rows[..j], rows[j..], from, to);
    assert rows == rows[..j] + rows[j..];
  }

  lemma {:induction false} BetweenOfStretches(rows: seq<Row>, from: Position, to: Position, i: nat, j: nat)
    requires i <= j <= |rows|
    requires forall q :: 0 <= q < i ==> rows[q].lsn < from
    requires forall q :: i <= q < j ==> from <= rows[q].lsn <= to
    requires forall q :: j <= q < |rows| ==> to < rows[q].lsn
    ensures Between(rows, from, to) == rows[i..j]
  {
    BetweenDropsBack(rows, from, to, j);
    BetweenDropsFront(rows[..j], from, to, i);
    assert rows[..j][i..] == rows[i..j];
    BetweenOfInside(rows[i..j], from, to);
  }

  lemma {:induction false} SortedAbove(rows: seq<Row>, lsn: Position)
    requires Sorted(rows)
    ensures forall q :: Below(rows, lsn) <= q < |rows| ==> rows[q].lsn >= lsn
  {
  }

  /** In a sorted table a range of positions is one contiguous stretch of rows. */
  lemma {:induction false} BetweenIsSlice(rows: seq<Row>, from: Position, to: Position)
    requires Sorted(rows) && from <= to + 1
    ensures Below(rows, from) <= Below(rows, to + 1)
    ensures Between(rows, from, to) == rows[Below(rows, from)..Below(rows, to + 1)]
  {
    SortedAbove(rows, from);
    SortedAbove(rows, to + 1);
    BetweenOfStretches(rows, from, to, Below(rows, from), Below(rows, to + 1));
  }
}
