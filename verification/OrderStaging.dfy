/** What the saves of an order stage, over a whole life of the order: made, changed, saved, let go, loaded and
 *  changed again, with saves that may fail anywhere and other orders' saves in between.
 */
module OrderStaging {
  import opened Calls
  import opened Ids
  import opened Domain
  import opened OrderTables
  import opened OrderProperties

  lemma {:induction false} NothingMapped(fulfil: bool)
    ensures Mapped([], fulfil) == []
  {
  }

  lemma {:induction false} SaveAppends(t: Tables, o: OrderData, fulfil: bool)
    ensures var r := SaveOrder(t, o, fulfil);
            r.Committed? ==> r.tables.outbox == t.outbox + Images(o, o.events, fulfil)
  {
    var u := UpsertOrder(t, o);
    if u.Committed? {
      InsertingLines(ClearItems(u.tables, o.id), o.id, o.items);
    }
    hide InsertItems, Images;
  }

  lemma {:induction false} LinesWithoutOne(b: seq<OrderItem>, i: nat)
    requires i < |b|
    ensures multiset(LinesOf(b))
            == multiset(LinesOf(b[..i] + b[i + 1..])) + multiset{(b[i].productId, b[i].quantity, b[i].price)}
  {
    var lines := LinesOf(b);
    assert LinesOf(b[..i] + b[i + 1..]) == lines[..i] + lines[i + 1..];
    assert lines == lines[..i] + [lines[i]] + lines[i + 1..];
  }

  lemma {:induction false} RestsAgree<T>(a: seq<T>, b: seq<T>, i: nat)
    requires a != [] && i < |b| && b[i] == a[0] && multiset(a) == multiset(b)
    ensures multiset(a[..0] + a[1..]) == multiset(b[..i] + b[i + 1..])
  {
    MultisetWithoutOne(a, 0);
    MultisetWithoutOne(b, i);
  }

  /** The same lines in another order are announced alike. */
  lemma {:induction false} LinesOfPermutation(a: seq<OrderItem>, b: seq<OrderItem>)
    requires multiset(a) == multiset(b)
    ensures multiset(LinesOf(a)) == multiset(LinesOf(b))
    decreases |a|
  {
    hide LinesOf;
    if a != [] {
      var i := FindIn(a, b, a[0]);
      LinesWithoutOne(a, 0);
      LinesWithoutOne(b, i);
      RestsAgree(a, b, i);
      LinesOfPermutation(a[..0] + a[1..], b[..i] + b[i + 1..]);
    } else {
      assert |b| == |multiset(b)| == 0;
    }
  }

  /** The message tells what these tables say of the order: its customer, its status, the sum of its lines and,
   *  when it announces a new order, each line's product, quantity and price. */
  ghost predicate Tells(row: OutboxRow, v: Tables, id: Uuid) {
    && row.orderId == id && id in v.orders
    && row.customerId == v.orders[id].customerId && row.status == v.orders[id].status
    && row.total == Total(ItemsFor(v, id))
    && (if row.kind.OrderCreated? then multiset(row.lines) == multiset(LinesOf(ItemsFor(v, id))) else row.lines == [])
  }

  /** Each message tells what was committed in the same transaction. */
  lemma {:induction false} AnnouncedIsWhatIsCommitted(t: Tables, o: OrderData, fulfil: bool)
    requires SaveOrder(t, o, fulfil).Committed?
    ensures var v := SaveOrder(t, o, fulfil).tables;
            && v.outbox == t.outbox + Images(o, o.events, fulfil)
            && forall k :: |t.outbox| <= k < |v.outbox| ==> Tells(v.outbox[k], v, o.id)
  {
    SaveAppends(t, o, fulfil);
    ImagesAreMapped(o, o.events, fulfil);
    SavedLines(t, o, fulfil);
    StoredLines(t, o, fulfil);
    assert RowOf(o).customerId == o.customerId && RowOf(o).status == StatusName(o.status);
    hide SaveOrder, Images, Total, ItemsFor, ItemIds, RowOf, StatusName;
    var v := SaveOrder(t, o, fulfil).tables;
    LinesOfPermutation(ItemsFor(v, o.id), Owned(o));
    assert LinesOf(Owned(o)) == LinesOf(o.items);
    hide LinesOf, Owned;
  }

  /** The messages one step commits for the order: the images of its pending events, told of the order as it
   *  is, if the step is a save that commits. */
  function StagedBy(s: Shop, step: Step, fulfil: bool): seq<OutboxRow> {
    if step == Save(false) && SaveOrder(s.tables, s.order, fulfil).Committed?
    then Images(s.order, s.order.events, fulfil) else []
  }

  ghost function Staged(s: Shop, steps: seq<Step>, fulfil: bool): seq<OutboxRow>
    decreases |steps|
  {
    if steps == [] then [] else StagedBy(s, steps[0], fulfil) + Staged(Take(s, steps[0], fulfil), steps[1..], fulfil)
  }

  /** The pending events are the last ones raised. */
  predicate PendingAreLast(s: Shop) {
    |s.order.events| <= |s.raised| && s.raised == Settled(s) + s.order.events
  }

  lemma {:induction false} StepStages(s: Shop, step: Step, fulfil: bool)
    ensures var v := Take(s, step, fulfil);
            && v.order.id == s.order.id
            && Announced(v.tables.outbox, s.order.id)
               == Announced(s.tables.outbox, s.order.id) + StagedBy(s, step, fulfil)
  {
    hide Announced, Images, InsertItems, ScanOrder, ItemsFor;
    match step
    case Save(_) =>
      ImagesAreMapped(s.order, s.order.events, fulfil);
      AnnouncedOfConcat(s.tables.outbox, Images(s.order, s.order.events, fulfil), s.order.id);
      SaveAppends(s.tables, s.order, fulfil);
      hide SaveOrder;
    case Others(tables) =>
      if s.tables.outbox <= tables.outbox {
        AnnouncedOfConcat(s.tables.outbox, tables.outbox[|s.tables.outbox|..], s.order.id);
        assert s.tables.outbox + tables.outbox[|s.tables.outbox|..] == tables.outbox;
      }
      hide SaveOrder;
    case Load => LoadedIdAndEvents(s.tables, s.order.id);
    case _ => hide SaveOrder;
  }

  lemma {:induction false} LoadedIdAndEvents(t: Tables, id: Uuid)
    ensures var r := ById(t, id); r.Ok? ==> r.value.id == id && r.value.events == []
  {
    hide ItemsFor, ParseStatus, AddressFrom, ScanPayment;
  }

  /** What is settled grows by exactly what is staged. */
  ghost predicate Settles(s: Shop, v: Shop, staged: seq<OutboxRow>, fulfil: bool) {
    && PendingAreLast(v)
    && Mapped(Settled(v), fulfil) == Mapped(Settled(s), fulfil) + Kinds(staged)
  }

  lemma {:induction false} SameEventsSettle(s: Shop, v: Shop, fulfil: bool)
    requires PendingAreLast(s)
    requires v.raised == s.raised && v.order.events == s.order.events
    ensures Settles(s, v, [], fulfil)
  {
    assert Kinds([]) == [];
    hide Mapped;
  }

  lemma {:induction false} UpdateSettles(s: Shop, v: Shop, event: EventKind, fulfil: bool)
    requires PendingAreLast(s)
    requires v.raised == s.raised + [event] && v.order.events == s.order.events + [event]
    ensures Settles(s, v, [], fulfil)
  {
    assert Kinds([]) == [];
    assert Settled(v) == Settled(s);
    hide Mapped;
  }

  lemma {:induction false} LoadSettles(s: Shop, v: Shop, fulfil: bool)
    requires PendingAreLast(s)
    requires v.raised == Settled(s) && v.order.events == []
    ensures Settles(s, v, [], fulfil)
  {
    assert Kinds([]) == [];
    assert Settled(v) == Settled(s);
    hide Mapped;
  }

  lemma {:induction false} SaveSettles(s: Shop, fails: bool, fulfil: bool)
    requires PendingAreLast(s)
    ensures Settles(s, Take(s, Save(fails), fulfil), StagedBy(s, Save(fails), fulfil), fulfil)
  {
    var v := Take(s, Save(fails), fulfil);
    if !fails && SaveOrder(s.tables, s.order, fulfil).Committed? {
      ImagesAreMapped(s.order, s.order.events, fulfil);
      hide SaveOrder, Kinds, Images, Mapped, Announced;
      MappedOfConcat(Settled(s), s.order.events, fulfil);
      assert Settled(v) == s.raised && s.raised == Settled(v) + v.order.events;
    } else {
      hide SaveOrder;
      SameEventsSettle(s, v, fulfil);
    }
  }

  lemma {:induction false} SettlesTransitively(
    s: Shop, t: Shop, v: Shop, a: seq<OutboxRow>, b: seq<OutboxRow>, fulfil: bool)
    requires Settles(s, t, a, fulfil) && Settles(t, v, b, fulfil)
    ensures Settles(s, v, a + b, fulfil)
  {
    hide Mapped, PendingAreLast, Settled, Kinds;
    KindsOfConcat(a, b);
    var before := Mapped(Settled(s), fulfil);
    assert before + Kinds(a) + Kinds(b) == before + (Kinds(a) + Kinds(b));
  }

  lemma {:induction false} StepSettles(s: Shop, step: Step, fulfil: bool)
    requires PendingAreLast(s)
    ensures Settles(s, Take(s, step, fulfil), StagedBy(s, step, fulfil), fulfil)
  {
    var v := Take(s, step, fulfil);
    hide SaveOrder, ById, Announced, Settles, PendingAreLast, Settled, Images, Domain.Without;
    if step.Save? {
      SaveSettles(s, step.fails, fulfil);
    } else if step.Update? && v.raised != s.raised {
      UpdateSettles(s, v, OrderUpdated, fulfil);
    } else if step.Load? && ById(s.tables, s.order.id).Ok? {
      LoadedIdAndEvents(s.tables, s.order.id);
      LoadSettles(s, v, fulfil);
    } else {
      SameEventsSettle(s, v, fulfil);
    }
  }

  /** Exactly once, whatever was announced before: over any sequence of changes, of saves that may fail
   *  anywhere, and of reloads, the messages a run adds for the order are the images of its committing saves,
   *  one save after another, each telling the order as it was then; and their kinds, followed by the events
   *  still pending, are all the events raised, in order. */
  lemma {:induction false} EventsAreStagedExactlyOnce(s: Shop, steps: seq<Step>, fulfil: bool)
    requires s.order.events == s.raised
    ensures var v := TakeAll(s, steps, fulfil);
            var staged := Staged(s, steps, fulfil);
            && Announced(v.tables.outbox, s.order.id) == Announced(s.tables.outbox, s.order.id) + staged
            && Kinds(staged) + Mapped(v.order.events, fulfil) == Mapped(v.raised, fulfil)
  {
    hide TakeAll, Staged, Announced, Mapped, Kinds;
    NothingMapped(fulfil);
    RunStages(s, steps, fulfil);
    RunSettles(s, steps, fulfil);
    var v := TakeAll(s, steps, fulfil);
    MappedOfConcat(Settled(v), v.order.events, fulfil);
  }

  lemma {:induction false} RunStages(s: Shop, steps: seq<Step>, fulfil: bool)
    ensures var v := TakeAll(s, steps, fulfil);
            && v.order.id == s.order.id
            && Announced(v.tables.outbox, s.order.id)
               == Announced(s.tables.outbox, s.order.id) + Staged(s, steps, fulfil)
    decreases |steps|
  {
    hide Take, Announced, StagedBy;
    if steps != [] {
      var t := Take(s, steps[0], fulfil);
      StepStages(s, steps[0], fulfil);
      RunStages(t, steps[1..], fulfil);
      var id, first, rest := s.order.id, StagedBy(s, steps[0], fulfil), Staged(t, steps[1..], fulfil);
      assert Staged(s, steps, fulfil) == first + rest && TakeAll(s, steps, fulfil) == TakeAll(t, steps[1..], fulfil);
      hide TakeAll, Staged;
      assert Announced(s.tables.outbox, id) + first + rest == Announced(s.tables.outbox, id) + (first + rest);
    }
  }

  lemma {:induction false} RunSettles(s: Shop, steps: seq<Step>, fulfil: bool)
    requires PendingAreLast(s)
    ensures Settles(s, TakeAll(s, steps, fulfil), Staged(s, steps, fulfil), fulfil)
    decreases |steps|
  {
    if steps == [] {
      SameEventsSettle(s, s, fulfil);
    } else {
      var t := Take(s, steps[0], fulfil);
      StepSettles(s, steps[0], fulfil);
      assert PendingAreLast(t);
      hide Take, StagedBy, PendingAreLast, Settles;
      RunSettles(t, steps[1..], fulfil);
      SettlesTransitively(s, t, TakeAll(t, steps[1..], fulfil), StagedBy(s, steps[0], fulfil),
                          Staged(t, steps[1..], fulfil), fulfil);
    }
  }

  // What every message of a run says.

  lemma {:induction false} TakeAllOfConcat(s: Shop, a: seq<Step>, b: seq<Step>, fulfil: bool)
    ensures TakeAll(s, a + b, fulfil) == TakeAll(TakeAll(s, a, fulfil), b, fulfil)
    decreases |a|
  {
    hide Take;
    if a == [] {
      assert a + b == b;
    } else {
      assert (a + b)[1..] == a[1..] + b;
      TakeAllOfConcat(Take(s, a[0], fulfil), a[1..], b, fulfil);
    }
  }

  /** The order's messages that an extension of the outbox adds are announced by it. */
  lemma {:induction false} AnnouncedContains(rows: seq<OutboxRow>, orderId: Uuid, k: nat)
    requires k < |rows| && rows[k].orderId == orderId
    ensures Announced(rows, orderId) != []
    decreases |rows|
  {
    AnnouncedOfConcat(rows[..k], rows[k..], orderId);
    assert rows[..k] + rows[k..] == rows;
    AnnouncedOfConcat([rows[k]], rows[k + 1..], orderId);
    assert [rows[k]] + rows[k + 1..] == rows[k..];
    assert [rows[k]][1..] == [];
  }

  /** Row k was appended by a save of the run, is a message of the order as it was then, and tells what that very
   *  save committed. */
  ghost predicate TellsItsOwnSave(s: Shop, steps: seq<Step>, fulfil: bool, k: nat, row: OutboxRow) {
    exists i :: 0 <= i < |steps| && IsAppendedBy(TakeAll(s, steps[..i], fulfil), steps[i], fulfil, k, row)
  }

  ghost predicate IsAppendedBy(u: Shop, step: Step, fulfil: bool, k: nat, row: OutboxRow) {
    var outbox := Take(u, step, fulfil).tables.outbox;
    && |u.tables.outbox| <= k < |outbox| && outbox[k] == row
    && row in StagedBy(u, step, fulfil)
    && Tells(row, Take(u, step, fulfil).tables, u.order.id)
  }

  lemma {:induction false} TakeAddsMessages(u: Shop, step: Step, fulfil: bool, k: nat)
    requires var v := Take(u, step, fulfil); k < |v.tables.outbox| && v.tables.outbox[k].orderId == u.order.id
    ensures var v := Take(u, step, fulfil);
            && u.tables.outbox <= v.tables.outbox && v.order.id == u.order.id
            && (k >= |u.tables.outbox| ==> IsAppendedBy(u, step, fulfil, k, v.tables.outbox[k]))
  {
    if step.Save? && !step.fails && SaveOrder(u.tables, u.order, fulfil).Committed? {
      AnnouncedIsWhatIsCommitted(u.tables, u.order, fulfil);
      hide SaveOrder, Images, Total, ItemsFor, Tells;
      var v := Take(u, step, fulfil);
      if k >= |u.tables.outbox| {
        assert v.tables.outbox[k] == Images(u.order, u.order.events, fulfil)[k - |u.tables.outbox|];
      }
    } else if step.Others? && u.tables.outbox <= step.tables.outbox && k >= |u.tables.outbox| {
      var more := step.tables.outbox[|u.tables.outbox|..];
      hide SaveOrder, Announced;
      if Announced(more, u.order.id) == [] {
        assert Take(u, step, fulfil).tables == step.tables;
        AnnouncedContains(more, u.order.id, k - |u.tables.outbox|);
      }
    }
    hide SaveOrder, Images, Total, ItemsFor, Announced, Tells;
  }

  lemma {:induction false} EmptyTakes(s: Shop, fulfil: bool)
    ensures TakeAll(s, [], fulfil) == s
  {
  }

  lemma {:induction false} LastStep(s: Shop, steps: seq<Step>, fulfil: bool)
    requires steps != []
    ensures var n := |steps| - 1; TakeAll(s, steps, fulfil) == Take(TakeAll(s, steps[..n], fulfil), steps[n], fulfil)
  {
    hide Take;
    var n := |steps| - 1;
    TakeAllOfConcat(s, steps[..n], [steps[n]], fulfil);
    assert steps[..n] + [steps[n]] == steps && [steps[n]][1..] == [];
  }

  /** Over every such run: each message the run adds for the order was appended by one of its saves, tells the
   *  order as it was then: the customer, status, sum and lines committed in that transaction. */
  lemma {:induction false} EachMessageTellsItsOwnSave(s: Shop, steps: seq<Step>, fulfil: bool, k: nat)
    requires var v := TakeAll(s, steps, fulfil);
             |s.tables.outbox| <= k < |v.tables.outbox| && v.tables.outbox[k].orderId == s.order.id
    ensures TellsItsOwnSave(s, steps, fulfil, k, TakeAll(s, steps, fulfil).tables.outbox[k])
    decreases |steps|
  {
    hide Take, TakeAll, IsAppendedBy;
    if steps == [] {
      assert TakeAll(s, [], fulfil) == s by { EmptyTakes(s, fulfil); }
    } else {
      var n := |steps| - 1;
      var u, v := TakeAll(s, steps[..n], fulfil), TakeAll(s, steps, fulfil);
      LastStep(s, steps, fulfil);
      OrderIdStays(s, steps[..n], fulfil);
      TakeAddsMessages(u, steps[n], fulfil, k);
      if k < |u.tables.outbox| {
        EachMessageTellsItsOwnSave(s, steps[..n], fulfil, k);
        var row := v.tables.outbox[k];
        var i :| 0 <= i < n && IsAppendedBy(TakeAll(s, steps[..n][..i], fulfil), steps[..n][i], fulfil, k, row);
        assert steps[..n][..i] == steps[..i] && steps[..n][i] == steps[i];
      }
    }
  }

  lemma {:induction false} OrderIdStays(s: Shop, steps: seq<Step>, fulfil: bool)
    ensures TakeAll(s, steps, fulfil).order.id == s.order.id
    decreases |steps|
  {
    if steps != [] {
      assert Take(s, steps[0], fulfil).order.id == s.order.id by { hide SaveOrder, Announced; }
      hide Take;
      OrderIdStays(Take(s, steps[0], fulfil), steps[1..], fulfil);
    }
  }
}
