/** Reading the change table in batches that never split a transaction. */
module OutboxReader {
  import opened Calls
  import opened ChangeCapture
  import opened OutboxServices

  datatype Group = Group(lsn: Position, messages: seq<Envelope>)

  /** `floor` is the retention minimum the read saw. */
  datatype ReadResult =
    | Batch(groups: seq<Group>, floor: Position)
    | NotReady
    | Expired(checkpoint: Position, floor: Position)
    | Unreadable

  function MessagesOf(rows: seq<Row>): (messages: seq<Envelope>)
    ensures |messages| == |rows|
    ensures forall i :: 0 <= i < |rows| ==> messages[i] == rows[i].message
  {
    seq(|rows|, i requires 0 <= i < |rows| => rows[i].message)
  }

  /** How many leading rows belong to the first row's transaction. */
  function Run(rows: seq<Row>): (n: nat)
    requires rows != []
    ensures 1 <= n <= |rows|
    ensures forall q :: 0 <= q < n ==> rows[q].lsn == rows[0].lsn
    ensures n < |rows| ==> rows[n].lsn != rows[0].lsn
  {
    if |rows| == 1 || rows[1].lsn != rows[0].lsn then 1
    else
      var n := Run(rows[1..]);
      assert forall q :: 1 <= q < n + 1 ==> rows[q] == rows[1..][q - 1];
      n + 1
  }

  /** The rows cut wherever the position changes. */
  function GroupsOf(rows: seq<Row>): seq<Group> {
    if rows == [] then []
    else
      var n := Run(rows);
      [Group(rows[0].lsn, MessagesOf(rows[..n]))] + GroupsOf(rows[n..])
  }

  function RowsIn(groups: seq<Group>): seq<Row> {
    if groups == [] then [] else RowsOf(groups[0].lsn, groups[0].messages) + RowsIn(groups[1..])
  }

  function Without(rows: seq<Row>, lsn: Position): seq<Row> {
    if rows == [] then []
    else Without(rows[..|rows| - 1], lsn) + (if rows[|rows| - 1].lsn != lsn then [rows[|rows| - 1]] else [])
  }

  function ReadBatch(w: World, after: Position, batchSize: int): (World, ReadResult) {
    if batchSize <= 0 then (w, Unreadable)
    else
      var b := ReadBounds(w, after);
      if b.value.None? then (b.world, Unreadable)
      else
        var Bounds(floor, top, next) := b.value.value;
        var from := if after == 0 then floor else next;
        if top == 0 || floor == 0 then (b.world, NotReady)
        else if after != 0 && next < floor then (b.world, Expired(after, floor))
        else if from > top then (b.world, Batch([], floor))
        else Select(b.world, from, top, floor, batchSize)
  }

  function Select(w: World, from: Position, top: Position, floor: Position, batchSize: int): (World, ReadResult)
    requires batchSize > 0
  {
    var c := Changes(w, from, top, batchSize + 1);
    if c.value.None? then (c.world, Unreadable)
    else
      var rows := c.value.value;
      if |rows| <= batchSize then (c.world, Batch(GroupsOf(rows), floor)) else Trim(c.world, rows, floor)
  }

  /** The transaction the last row belongs to may be cut in half, so it is dropped, or fetched whole
   *  when there is nothing else. */
  function Trim(w: World, rows: seq<Row>, floor: Position): (World, ReadResult)
    requires rows != []
  {
    var last := rows[|rows| - 1].lsn;
    var kept := Without(rows, last);
    if kept != [] then (w, Batch(GroupsOf(kept), floor))
    else
      var all := Changes(w, last, last, 0);
      if all.value.None? then (all.world, Unreadable) else (all.world, Batch(GroupsOf(all.value.value), floor))
  }

  // What groups are.

  lemma {:induction false} RunIsItsRows(rows: seq<Row>, n: nat)
    requires 0 < n <= |rows| && forall q :: 0 <= q < n ==> rows[q].lsn == rows[0].lsn
    ensures RowsOf(rows[0].lsn, MessagesOf(rows[..n])) == rows[..n]
  {
  }

  lemma {:induction false} RowsInOfMore(head: Group, tail: seq<Group>)
    ensures RowsIn([head] + tail) == RowsOf(head.lsn, head.messages) + RowsIn(tail)
  {
    assert ([head] + tail)[1..] == tail;
  }

  lemma {:induction false} GroupsOfMore(rows: seq<Row>) returns (n: nat)
    requires rows != []
    ensures 0 < n <= |rows| && forall q :: 0 <= q < n ==> rows[q].lsn == rows[0].lsn
    ensures GroupsOf(rows) == [Group(rows[0].lsn, MessagesOf(rows[..n]))] + GroupsOf(rows[n..])
  {
    n := Run(rows);
    hide MessagesOf;
  }

  lemma {:induction false} NoRows()
    ensures RowsIn(GroupsOf([])) == []
  {
  }

  lemma {:induction false} GroupsKeepRows(rows: seq<Row>)
    ensures RowsIn(GroupsOf(rows)) == rows
    decreases |rows|
  {
    NoRows();
    hide GroupsOf, RowsIn, MessagesOf, RowsOf;
    if rows != [] {
      var n := GroupsOfMore(rows);
      GroupsKeepRows(rows[n..]);
      RowsInOfMore(Group(rows[0].lsn, MessagesOf(rows[..n])), GroupsOf(rows[n..]));
      RunIsItsRows(rows, n);
      assert rows[..n] + rows[n..] == rows;
    }
  }

  /** Groups come in strictly increasing order and none is empty. */
  lemma {:induction false} GroupsIncrease(rows: seq<Row>)
    requires Sorted(rows)
    ensures forall i :: 0 <= i < |GroupsOf(rows)| ==> GroupsOf(rows)[i].messages != []
    ensures forall i, j :: 0 <= i < j < |GroupsOf(rows)| ==> GroupsOf(rows)[i].lsn < GroupsOf(rows)[j].lsn
    ensures rows != [] ==> GroupsOf(rows)[0].lsn == rows[0].lsn
    decreases |rows|
  {
    if rows != [] {
      var n := Run(rows);
      assert Sorted(rows[n..]);
      GroupsIncrease(rows[n..]);
    }
  }

  lemma {:induction false} GroupsOfRun(run: seq<Row>, rest: seq<Row>)
    requires run != [] && forall q :: 0 <= q < |run| ==> run[q].lsn == run[0].lsn
    requires rest != [] ==> rest[0].lsn != run[0].lsn
    ensures GroupsOf(run + rest) == [Group(run[0].lsn, MessagesOf(run))] + GroupsOf(rest)
  {
    var rows := run + rest;
    var n := Run(rows);
    assert rest != [] ==> rows[|run|] == rest[0];
    assert n == |run|;
    assert rows[..n] == run && rows[n..] == rest;
  }

  lemma {:induction false} GroupsEnd(rows: seq<Row>)
    ensures GroupsOf(rows) == [] <==> rows == []
    ensures rows != [] ==> GroupsOf(rows)[|GroupsOf(rows)| - 1].lsn == rows[|rows| - 1].lsn
    decreases |rows|
  {
    if rows != [] {
      GroupsEnd(rows[Run(rows)..]);
    }
  }

  lemma {:induction false} AppendedUnderHead(g: Group, gs: seq<Group>, row: Row)
    requires gs != []
    ensures Appended([g] + gs, row) == [g] + Appended(gs, row)
  {
  }

  lemma {:induction false} GroupsOfOne(row: Row)
    ensures GroupsOf([row]) == [Group(row.lsn, [row.message])]
  {
    GroupsOfRun([row], []);
    assert [row] + [] == [row] && MessagesOf([row]) == [row.message];
  }

  lemma {:induction false} SplitRun(rows: seq<Row>) returns (run: seq<Row>, rest: seq<Row>)
    requires rows != []
    ensures rows == run + rest && run != [] && |rest| < |rows|
    ensures forall q :: 0 <= q < |run| ==> run[q].lsn == run[0].lsn
    ensures rest != [] ==> rest[0].lsn != run[0].lsn
  {
    run, rest := rows[..Run(rows)], rows[Run(rows)..];
  }

  /** Reading one more row grows the groups the way the loop does. */
  lemma {:induction false} GroupsOfAppend(rows: seq<Row>, row: Row)
    ensures GroupsOf(rows + [row]) == Appended(GroupsOf(rows), row)
    decreases |rows|
  {
    assert GroupsOf([]) == [];
    hide GroupsOf, Run, Appended;
    if rows == [] {
      GroupsOfOne(row);
      AppendedToNone(row);
      assert rows + [row] == [row];
    } else {
      var run, rest := SplitRun(rows);
      assert rows + [row] == run + (rest + [row]);
      if rest != [] {
        GroupsOfAppend(rest, row);
        FirstRunAppend(run, rest, row);
      } else {
        assert rows == run && run + [] == run;
        GroupsOfOne(row);
        GroupsOfRun(run, []);
        LastRunAppend(run, row);
      }
    }
  }

  lemma {:induction false} AppendedToNone(row: Row)
    ensures Appended([], row) == [Group(row.lsn, [row.message])]
  {
  }

  lemma {:induction false} FirstRunAppend(run: seq<Row>, rest: seq<Row>, row: Row)
    requires run != [] && forall q :: 0 <= q < |run| ==> run[q].lsn == run[0].lsn
    requires rest != [] && rest[0].lsn != run[0].lsn
    requires GroupsOf(rest + [row]) == Appended(GroupsOf(rest), row)
    ensures GroupsOf(run + (rest + [row])) == Appended(GroupsOf(run + rest), row)
  {
    GroupsEnd(rest);
    GroupsOfRun(run, rest);
    GroupsOfRun(run, rest + [row]);
    AppendedUnderHead(Group(run[0].lsn, MessagesOf(run)), GroupsOf(rest), row);
  }

  lemma {:induction false} LastRunAppend(run: seq<Row>, row: Row)
    requires run != [] && forall q :: 0 <= q < |run| ==> run[q].lsn == run[0].lsn
    requires GroupsOf([row]) == [Group(row.lsn, [row.message])]
    ensures GroupsOf(run + [row]) == Appended([Group(run[0].lsn, MessagesOf(run))], row)
  {
    if row.lsn == run[0].lsn {
      GroupsOfRun(run + [row], []);
      assert run + [row] + [] == run + [row];
      assert MessagesOf(run + [row]) == MessagesOf(run) + [row.message];
    } else {
      GroupsOfRun(run, [row]);
    }
  }

  /** One more row joins the last group if it belongs to the same transaction. */
  function Appended(groups: seq<Group>, row: Row): seq<Group> {
    var last := |groups| - 1;
    if last >= 0 && groups[last].lsn == row.lsn
    then groups[last := Group(row.lsn, groups[last].messages + [row.message])]
    else groups + [Group(row.lsn, [row.message])]
  }

  // What a read promises.

  ghost predicate Boundary(rows: seq<Row>, k: nat)
    requires k <= |rows|
  {
    0 < k < |rows| ==> rows[k - 1].lsn != rows[k].lsn
  }

  /** k cuts the rows where a batch must end: at the last transaction boundary within the batch size,
   *  or, when the first transaction alone is larger than that, right after it. */
  ghost predicate CutsBatch(rows: seq<Row>, batchSize: nat, k: nat) {
    && k <= |rows| && Boundary(rows, k)
    && (rows != [] ==> k > 0)
    && (k <= batchSize ==> forall b :: k < b <= batchSize && b <= |rows| ==> !Boundary(rows, b))
    && (k > batchSize ==> forall q :: 0 <= q < k ==> rows[q].lsn == rows[0].lsn)
  }

  /** What the table held in the range a read asks for, at the moment it learnt the bounds. */
  function Readable(c: Capture, after: Position): seq<Row> {
    Between(c.log, if after == 0 then c.floor else after + 1, c.top)
  }

  lemma {:induction false} WithoutLast(rows: seq<Row>, lsn: Position, k: nat)
    requires k <= |rows|
    requires forall q :: 0 <= q < k ==> rows[q].lsn != lsn
    requires forall q :: k <= q < |rows| ==> rows[q].lsn == lsn
    ensures Without(rows, lsn) == rows[..k]
  {
    if rows != [] {
      var init := rows[..|rows| - 1];
      if k == |rows| {
        WithoutLast(init, lsn, k - 1);
        assert rows[..k] == init[..k - 1] + [rows[|rows| - 1]];
      } else {
        WithoutLast(init, lsn, k);
        assert rows[..k] == init[..k];
      }
    }
  }

  /** Nothing that happens after the bounds were read changes the rows inside them. */
  lemma {:induction false} RangeIsStable(c: Capture, d: Capture, from: Position, to: Position)
    requires Extends(c, d) && to <= c.top
    ensures Between(d.log, from, to) == Between(c.log, from, to)
  {
    var more := d.log[|c.log|..];
    assert d.log == c.log + more;
    BetweenOfOutside(more, from, to);
    BetweenOfConcat(c.log, more, from, to);
  }

  lemma {:induction false} BetweenWithin(rows: seq<Row>, from: Position, to: Position, f: Position, t: Position)
    requires from <= f && t <= to
    ensures Between(Between(rows, from, to), f, t) == Between(rows, f, t)
  {
    if rows != [] {
      BetweenWithin(rows[1..], from, to, f, t);
      var head := if from <= rows[0].lsn <= to then [rows[0]] else [];
      assert Between(head, f, t) == if f <= rows[0].lsn <= t then [rows[0]] else [];
      assert Between(rows, from, to) == head + Between(rows[1..], from, to);
      assert Between(rows, f, t) == Between(head, f, t) + Between(rows[1..], f, t);
      hide Between;
      BetweenOfConcat(head, Between(rows[1..], from, to), f, t);
    }
  }

  lemma {:induction false} BetweenStaysSorted(rows: seq<Row>, from: Position, to: Position)
    requires Sorted(rows)
    ensures Sorted(Between(rows, from, to))
  {
    if from <= to + 1 {
      BetweenIsSlice(rows, from, to);
    } else {
      BetweenOfOutside(rows, from, to);
    }
  }

  /** Only the clock moved between two worlds: the table grew and the script was read. */
  ghost predicate OnlyTime(w: World, v: World) {
    v == w.(capture := v.capture, script := v.script) && WellFormed(v.capture) && Extends(w.capture, v.capture)
  }

  lemma {:induction false} AwaitIsOnlyTime(w: World)
    requires WellFormed(w.capture)
    ensures OnlyTime(w, Await(w).world)
  {
    if w.script != [] {
      EvolveExtends(w.capture, w.script[0].changes);
    }
  }

  lemma {:induction false} OnlyTimeTransitively(u: World, v: World, w: World)
    requires OnlyTime(u, v) && OnlyTime(v, w)
    ensures OnlyTime(u, w)
  {
    ExtendsTransitively(u.capture, v.capture, w.capture);
  }

  lemma {:induction false} CutWhenAllFits(rows: seq<Row>, batchSize: nat)
    requires |rows| <= batchSize
    ensures CutsBatch(rows, batchSize, |rows|)
  {
  }

  /** Dropping the rows that share the last over-read row's position cuts where a batch must end. */
  lemma {:induction false} CutByOverRead(rows: seq<Row>, batchSize: nat) returns (k: nat)
    requires Sorted(rows) && 0 < batchSize < |rows|
    ensures k <= batchSize && Without(rows[..batchSize + 1], rows[batchSize].lsn) == rows[..k]
    ensures k > 0 ==> CutsBatch(rows, batchSize, k)
    ensures k == 0 ==> rows[0].lsn == rows[batchSize].lsn
  {
    var last := rows[batchSize].lsn;
    k := Below(rows, last);
    SortedAbove(rows, last);
    WithoutLast(rows[..batchSize + 1], last, k);
    assert rows[..batchSize + 1][..k] == rows[..k];
  }

  /** Refetching one position returns the whole first transaction. */
  lemma {:induction false} CutByRefetch(rows: seq<Row>, batchSize: nat) returns (k: nat)
    requires Sorted(rows) && 0 < batchSize < |rows| && rows[0].lsn == rows[batchSize].lsn
    ensures k <= |rows| && Between(rows, rows[0].lsn, rows[0].lsn) == rows[..k] && CutsBatch(rows, batchSize, k)
  {
    var lsn := rows[0].lsn;
    k := Below(rows, lsn + 1);
    SortedAbove(rows, lsn + 1);
    BetweenOfStretches(rows, lsn, lsn, 0, k);
  }

  lemma {:induction false} TrimCuts(w: World, rows: seq<Row>, floor: Position, batchSize: nat) returns (k: nat)
    requires WellFormed(w.capture) && Sorted(rows) && 0 < batchSize < |rows|
    requires Between(Await(w).world.capture.log, rows[0].lsn, rows[0].lsn) == Between(rows, rows[0].lsn, rows[0].lsn)
    ensures var (v, r) := Trim(w, rows[..batchSize + 1], floor);
            && OnlyTime(w, v)
            && (r.Unreadable? || (CutsBatch(rows, batchSize, k) && r == Batch(GroupsOf(rows[..k]), floor)))
  {
    AwaitIsOnlyTime(w);
    k := CutByOverRead(rows, batchSize);
    if k == 0 {
      k := CutByRefetch(rows, batchSize);
    } else {
      AwaitIsOnlyTime(w.(script := []));
    }
  }

  /** The rows of the first transaction in the range are still all there when it is fetched again. */
  lemma {:induction false} RefetchIsStable(c: Capture, d: Capture, from: Position, top: Position)
    requires Extends(c, d) && from <= top <= c.top && Between(c.log, from, top) != []
    ensures var rows := Between(c.log, from, top);
            Between(d.log, rows[0].lsn, rows[0].lsn) == Between(rows, rows[0].lsn, rows[0].lsn)
  {
    var lsn := Between(c.log, from, top)[0].lsn;
    BetweenInRange(c.log, from, top);
    RangeIsStable(c, d, lsn, lsn);
    BetweenWithin(c.log, from, top, lsn, lsn);
  }

  lemma {:induction false} SelectCuts(w: World, from: Position, top: Position, floor: Position, batchSize: nat)
    returns (k: nat)
    requires WellFormed(w.capture) && from <= top <= w.capture.top && batchSize > 0
    ensures var rows := Between(w.capture.log, from, top);
            var (v, r) := Select(w, from, top, floor, batchSize);
            && OnlyTime(w, v)
            && (r.Unreadable? || (CutsBatch(rows, batchSize, k) && r == Batch(GroupsOf(rows[..k]), floor)))
  {
    var rows := Between(w.capture.log, from, top);
    AwaitIsOnlyTime(w);
    var c := Changes(w, from, top, batchSize + 1);
    var d := c.world;
    RangeIsStable(w.capture, d.capture, from, top);
    k := |rows|;
    if |rows| <= batchSize {
      CutWhenAllFits(rows, batchSize);
      assert rows[..k] == rows;
    } else if c.value.Some? {
      assert c.value.value == rows[..batchSize + 1];
      BetweenStaysSorted(w.capture.log, from, top);
      AwaitIsOnlyTime(d);
      ExtendsTransitively(w.capture, d.capture, Await(d).world.capture);
      RefetchIsStable(w.capture, Await(d).world.capture, from, top);
      k := TrimCuts(d, rows, floor, batchSize);
      OnlyTimeTransitively(w, d, Trim(d, rows[..batchSize + 1], floor).0);
    }
  }

  lemma {:induction false} BetweenInRange(rows: seq<Row>, from: Position, to: Position)
    ensures forall q :: 0 <= q < |Between(rows, from, to)| ==> from <= Between(rows, from, to)[q].lsn <= to
  {
    if rows != [] { BetweenInRange(rows[1..], from, to); }
  }

  /** A read returns whole transactions, oldest first, as many as fit, and at least one if there is
   *  any; it never answers when the checkpoint has fallen behind the retention floor. */
  lemma {:induction false} ReadReturnsWholeTransactions(w: World, after: Position, batchSize: int) returns (k: nat)
    requires WellFormed(w.capture)
    ensures var (v, r) := ReadBatch(w, after, batchSize);
            var c := Await(w).world.capture;
            && OnlyTime(w, v) && WellFormed(c)
            && (batchSize > 0 ==> Extends(c, v.capture))
            && (r.Batch? ==>
                  && batchSize > 0 && r.floor == c.floor
                  && CutsBatch(Readable(c, after), batchSize, k)
                  && r.groups == GroupsOf(Readable(c, after)[..k]))
            && (r.Batch? && after != 0 ==> c.floor <= after + 1)
            && (r.Expired? ==> r == Expired(after, c.floor) && 0 != after && after + 1 < c.floor)
  {
    k := 0;
    AwaitIsOnlyTime(w);
    var b := ReadBounds(w, after);
    var c := b.world.capture;
    var from := if after == 0 then c.floor else after + 1;
    if batchSize <= 0 {
      AwaitIsOnlyTime(w.(script := []));
    } else if b.value.None? || c.top == 0 || c.floor == 0 || (after != 0 && from < c.floor) {
    } else if from > c.top {
      BetweenOfOutside(c.log, from, c.top);
    } else {
      k := SelectCuts(b.world, from, c.top, c.floor, batchSize);
      OnlyTimeTransitively(w, b.world, ReadBatch(w, after, batchSize).0);
    }
  }

  /** A captured row above the checkpoint that cleanup has already removed makes every read refuse. */
  lemma {:induction false} LostRowsStopTheReader(w: World, after: Position, batchSize: int, q: nat)
    requires WellFormed(w.capture) && after != 0
    requires var c := Await(w).world.capture; q < |c.log| && after < c.log[q].lsn < c.floor
    ensures !ReadBatch(w, after, batchSize).1.Batch?
    ensures batchSize > 0 && Await(w).outcome.Succeeds? ==> ReadBatch(w, after, batchSize).1.Expired?
  {
    AwaitIsOnlyTime(w);
  }

  // Resuming from the last group returned.

  function ReadOn(w: World, after: Position, batchSizes: seq<int>): (World, seq<Row>, Position)
    decreases |batchSizes|
  {
    if batchSizes == [] then (w, [], after)
    else
      var (v, r) := ReadBatch(w, after, batchSizes[0]);
      if r.Batch? && r.groups != [] then
        var (u, rows, last) := ReadOn(v, r.groups[|r.groups| - 1].lsn, batchSizes[1..]);
        (u, RowsIn(r.groups) + rows, last)
      else ReadOn(v, after, batchSizes[1..])
  }

  lemma {:induction false} BetweenJoins(rows: seq<Row>, from: Position, mid: Position, to: Position)
    requires Sorted(rows) && from <= mid + 1 && mid <= to
    ensures Between(rows, from, to) == Between(rows, from, mid) + Between(rows, mid + 1, to)
  {
    BetweenIsSlice(rows, from, to);
    BetweenIsSlice(rows, from, mid);
    BetweenIsSlice(rows, mid + 1, to);
  }

  lemma {:induction false} CutIsRange(rows: seq<Row>, from: Position, top: Position, batchSize: nat, k: nat)
    requires Sorted(rows)
    requires var some := Between(rows, from, top); 0 < k <= |some| && CutsBatch(some, batchSize, k)
    ensures var some := Between(rows, from, top); some[..k] == Between(rows, from, some[k - 1].lsn)
  {
    var some := Between(rows, from, top);
    var last := some[k - 1].lsn;
    BetweenInRange(rows, from, top);
    BetweenStaysSorted(rows, from, top);
    BetweenWithin(rows, from, top, from, last);
    BetweenOfStretches(some, from, last, 0, k);
  }

  lemma {:induction false} ReadReturnsRange(w: World, after: Position, batchSize: int)
    requires WellFormed(w.capture) && after != 0
    requires var r := ReadBatch(w, after, batchSize).1; r.Batch? && r.groups != []
    ensures var (v, r) := ReadBatch(w, after, batchSize);
            var last := r.groups[|r.groups| - 1].lsn;
            && after < last <= v.capture.top
            && RowsIn(r.groups) == Between(v.capture.log, after + 1, last)
  {
    hide ReadBatch, Between, RowsIn, GroupsOf, Await, Extends;
    var (v, r) := ReadBatch(w, after, batchSize);
    var c := Await(w).world.capture;
    var k := ReadReturnsWholeTransactions(w, after, batchSize);
    var rows := Readable(c, after);
    GroupsEnd(rows[..k]);
    GroupsKeepRows(rows[..k]);
    BetweenInRange(c.log, after + 1, c.top);
    CutIsRange(c.log, after + 1, c.top, batchSize, k);
    RangeIsStable(c, v.capture, after + 1, rows[k - 1].lsn);
  }

  lemma {:induction false} ReadThenRest(w: World, after: Position, batchSize: int, last: Position, d: Capture)
    requires WellFormed(w.capture) && after != 0
    requires var r := ReadBatch(w, after, batchSize).1; r.Batch? && r.groups != []
    requires WellFormed(d) && Extends(ReadBatch(w, after, batchSize).0.capture, d)
    requires var groups := ReadBatch(w, after, batchSize).1.groups; groups[|groups| - 1].lsn <= last
    ensures var groups := ReadBatch(w, after, batchSize).1.groups;
            RowsIn(groups) + Between(d.log, groups[|groups| - 1].lsn + 1, last) == Between(d.log, after + 1, last)
  {
    hide ReadBatch, Between, RowsIn, GroupsOf;
    var (v, r) := ReadBatch(w, after, batchSize);
    var mid := r.groups[|r.groups| - 1].lsn;
    ReadReturnsRange(w, after, batchSize);
    RangeIsStable(v.capture, d, after + 1, mid);
    BetweenJoins(d.log, after + 1, mid, last);
  }

  /** However reads, commits and cleanups interleave, what was read is exactly the captured rows from
   *  the starting checkpoint up to where the reader now stands: in order, no gap, no repeat. */
  lemma {:induction false} ReadingIsGapFree(w: World, after: Position, batchSizes: seq<int>)
    requires WellFormed(w.capture) && after != 0
    ensures var (v, rows, last) := ReadOn(w, after, batchSizes);
            && OnlyTime(w, v) && after <= last
            && rows == Between(v.capture.log, after + 1, last)
    decreases |batchSizes|
  {
    hide ReadBatch, WellFormed, Extends, RowsIn;
    if batchSizes == [] {
      BetweenOfOutside(w.capture.log, after + 1, after);
      AwaitIsOnlyTime(w.(script := []));
    } else {
      var (v, r) := ReadBatch(w, after, batchSizes[0]);
      var _ := ReadReturnsWholeTransactions(w, after, batchSizes[0]);
      if r.Batch? && r.groups != [] {
        var mid := r.groups[|r.groups| - 1].lsn;
        ReadReturnsRange(w, after, batchSizes[0]);
        ReadingIsGapFree(v, mid, batchSizes[1..]);
        var (u, rest, last) := ReadOn(v, mid, batchSizes[1..]);
        OnlyTimeTransitively(w, v, u);
        ReadThenRest(w, after, batchSizes[0], last, u.capture);
      } else {
        ReadingIsGapFree(v, after, batchSizes[1..]);
        OnlyTimeTransitively(w, v, ReadOn(w, after, batchSizes).0);
      }
    }
  }

  /** The retention floor of the first read that returned rows, for a reader that starts with no position. */
  function FirstFloor(w: World, batchSizes: seq<int>): Position
    decreases |batchSizes|
  {
    if batchSizes == [] then 0
    else
      var (v, r) := ReadBatch(w, 0, batchSizes[0]);
      if r.Batch? && r.groups != [] then r.floor else FirstFloor(v, batchSizes[1..])
  }

  lemma {:induction false} FirstReadReturnsRange(w: World, batchSize: int)
    requires WellFormed(w.capture)
    requires var r := ReadBatch(w, 0, batchSize).1; r.Batch? && r.groups != []
    ensures var (v, r) := ReadBatch(w, 0, batchSize);
            var last := r.groups[|r.groups| - 1].lsn;
            && 0 < last <= v.capture.top && r.floor <= last
            && RowsIn(r.groups) == Between(v.capture.log, r.floor, last)
  {
    hide ReadBatch, Between, RowsIn, GroupsOf, Await, Extends;
    var (v, r) := ReadBatch(w, 0, batchSize);
    var c := Await(w).world.capture;
    var k := ReadReturnsWholeTransactions(w, 0, batchSize);
    var rows := Readable(c, 0);
    GroupsEnd(rows[..k]);
    GroupsKeepRows(rows[..k]);
    BetweenInRange(c.log, c.floor, c.top);
    BetweenIsOfLog(c.log, c.floor, c.top);
    assert rows[k - 1] in rows && rows[k - 1].lsn > 0;
    CutIsRange(c.log, c.floor, c.top, batchSize, k);
    RangeIsStable(c, v.capture, c.floor, rows[k - 1].lsn);
  }

  lemma {:induction false} BetweenIsOfLog(rows: seq<Row>, from: Position, to: Position)
    ensures forall row :: row in Between(rows, from, to) ==> row in rows
  {
    if rows != [] { BetweenIsOfLog(rows[1..], from, to); }
  }

  /** A reader that starts with no position: what was read is exactly the captured rows from the retention
   *  floor of the first read that returned any, up to where the reader now stands. */
  lemma {:induction false} FirstReadingIsGapFree(w: World, batchSizes: seq<int>)
    requires WellFormed(w.capture)
    ensures var (v, rows, last) := ReadOn(w, 0, batchSizes);
            && OnlyTime(w, v)
            && (if last == 0 then rows == [] else rows == Between(v.capture.log, FirstFloor(w, batchSizes), last))
    decreases |batchSizes|
  {
    hide ReadBatch, WellFormed, Extends, RowsIn, Between;
    if batchSizes == [] {
      AwaitIsOnlyTime(w.(script := []));
    } else {
      var (v, r) := ReadBatch(w, 0, batchSizes[0]);
      var _ := ReadReturnsWholeTransactions(w, 0, batchSizes[0]);
      if r.Batch? && r.groups != [] {
        var mid := r.groups[|r.groups| - 1].lsn;
        FirstReadReturnsRange(w, batchSizes[0]);
        ReadingIsGapFree(v, mid, batchSizes[1..]);
        var (u, rest, last) := ReadOn(v, mid, batchSizes[1..]);
        OnlyTimeTransitively(w, v, u);
        RangeIsStable(v.capture, u.capture, r.floor, mid);
        SortedLog(u.capture);
        BetweenJoins(u.capture.log, r.floor, mid, last);
      } else {
        FirstReadingIsGapFree(v, batchSizes[1..]);
        OnlyTimeTransitively(w, v, ReadOn(w, 0, batchSizes).0);
      }
    }
  }

  // Where a batch lies in the log.

  ghost predicate Increasing(groups: seq<Group>) {
    && (forall i :: 0 <= i < |groups| ==> groups[i].messages != [])
    && (forall i, j :: 0 <= i < j < |groups| ==> groups[i].lsn < groups[j].lsn)
  }

  /** The groups are whole transactions of the log, one after the other from row `at` to row `end`. */
  ghost predicate OnLog(log: seq<Row>, groups: seq<Group>, at: nat, end: nat) {
    && at <= end <= |log| && log[at..end] == RowsIn(groups) && Increasing(groups)
    && (groups != [] && end < |log| ==> groups[|groups| - 1].lsn < log[end].lsn)
  }

  lemma {:induction false} OnLogIsStable(c: Capture, d: Capture, groups: seq<Group>, at: nat, end: nat)
    requires WellFormed(c) && Extends(c, d) && OnLog(c.log, groups, at, end)
    ensures OnLog(d.log, groups, at, end)
  {
    assert d.log[at..end] == c.log[at..end];
    if groups != [] && end == |c.log| < |d.log| {
      RowsInEnd(groups);
      assert c.log[end - 1] == c.log[at..end][end - 1 - at];
    }
  }

  lemma {:induction false} RowsInEnd(groups: seq<Group>)
    requires groups != [] && Increasing(groups)
    ensures var rows := RowsIn(groups); rows != [] && rows[|rows| - 1].lsn == groups[|groups| - 1].lsn
    decreases |groups|
  {
    if |groups| > 1 {
      RowsInEnd(groups[1..]);
    }
  }

  /** The first group covers exactly the rows of its position; the rest follow it. */
  lemma {:induction false} OnLogHead(log: seq<Row>, groups: seq<Group>, at: nat, end: nat)
    requires OnLog(log, groups, at, end) && groups != []
    ensures var mid := at + |groups[0].messages|;
            && at < mid <= end && log[at..mid] == RowsOf(groups[0].lsn, groups[0].messages)
            && (mid < |log| ==> groups[0].lsn < log[mid].lsn)
            && OnLog(log, groups[1..], mid, end)
  {
    var g, rest := groups[0], groups[1..];
    var n := |g.messages|;
    var rows := RowsIn(groups);
    assert |rows| == n + |RowsIn(rest)| && rows[..n] == RowsOf(g.lsn, g.messages) && rows[n..] == RowsIn(rest);
    assert log[at..at + n] == rows[..n] && log[at + n..end] == rows[n..];
    if rest != [] {
      assert rows[n] == Row(rest[0].lsn, rest[0].messages[0]);
      assert log[at + n] == log[at..end][n];
    }
  }

  lemma {:induction false} RangeToTopIsTail(c: Capture, from: Position)
    requires WellFormed(c) && from <= c.top + 1
    ensures Between(c.log, from, c.top) == c.log[Below(c.log, from)..]
  {
    BetweenIsSlice(c.log, from, c.top);
    var n := Below(c.log, c.top + 1);
    assert n == |c.log|;
  }

  /** A batch starts at the first row the read could ask for. */
  lemma {:induction false} ReadLiesOnLog(w: World, after: Position, batchSize: int) returns (at: nat, end: nat)
    requires WellFormed(w.capture) && ReadBatch(w, after, batchSize).1.Batch?
    ensures var (v, r) := ReadBatch(w, after, batchSize);
            var from := if after == 0 then r.floor else after + 1;
            && OnLog(v.capture.log, r.groups, at, end)
            && (forall q :: 0 <= q < at ==> v.capture.log[q].lsn < from)
            && (r.groups != [] ==> at < |v.capture.log| && from <= v.capture.log[at].lsn)
  {
    var (v, r) := ReadBatch(w, after, batchSize);
    var c := Await(w).world.capture;
    var k := ReadReturnsWholeTransactions(w, after, batchSize);
    at, end := 0, 0;
    if r.groups != [] {
      at, end := CutLiesOnLog(c, after, batchSize, k);
      OnLogIsStable(c, v.capture, r.groups, at, end);
    } else {
      assert v.capture.log[0..0] == [];
    }
  }

  lemma {:induction false} CutLiesOnLog(c: Capture, after: Position, batchSize: nat, k: nat) returns (at: nat, end: nat)
    requires WellFormed(c) && CutsBatch(Readable(c, after), batchSize, k)
    requires GroupsOf(Readable(c, after)[..k]) != []
    ensures OnLog(c.log, GroupsOf(Readable(c, after)[..k]), at, end)
    ensures var from := if after == 0 then c.floor else after + 1;
            at < |c.log| && from <= c.log[at].lsn && forall q :: 0 <= q < at ==> c.log[q].lsn < from
  {
    hide OnLog, Between;
    var from := if after == 0 then c.floor else after + 1;
    var rows := Readable(c, after);
    if from > c.top { BetweenOfOutside(c.log, from, c.top); }
    RangeToTopIsTail(c, from);
    at, end := Below(c.log, from), Below(c.log, from) + k;
    hide Below, WellFormed, GroupsOf;
    GroupsOnTail(c.log, at, rows, k) by { SortedLog(c); }
  }

  lemma {:induction false} SortedLog(c: Capture)
    requires WellFormed(c)
    ensures Sorted(c.log)
  {
  }

  lemma {:induction false} GroupsOnTail(log: seq<Row>, at: nat, rows: seq<Row>, k: nat)
    requires Sorted(log) && at <= |log| && rows == log[at..] && 0 < k <= |rows| && Boundary(rows, k)
    ensures OnLog(log, GroupsOf(rows[..k]), at, at + k)
  {
    hide GroupsOf, RowsIn;
    var some := rows[..k];
    assert log[at..at + k] == some;
    assert Sorted(some);
    GroupsKeepRows(some);
    GroupsIncrease(some);
    GroupsEnd(some);
    assert at + k < |log| ==> rows[k - 1] == log[at + k - 1] && rows[k] == log[at + k];
  }
}
