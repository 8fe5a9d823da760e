/** The order repository as it runs: statements on an open transaction, committed or rolled back. */
module OrderRepository {
  import opened Calls
  import opened Ids
  import opened Domain
  import Spec = OrderTables
  import opened OrderTables

  /** No statement or commit is going to fail for a reason of the database's own. */
  predicate Calm(faults: seq<bool>) {
    forall i :: 0 <= i < |faults| ==> !faults[i]
  }

  /** The database with one open transaction. `faults` says which of the next statements fail by
   *  themselves; a failed commit changes nothing. */
  class Database {
    var committed: Tables
    var working: Tables
    var faults: seq<bool>

    method Fault() returns (fault: bool)
      modifies this`faults
      ensures Calm(old(faults)) ==> !fault && Calm(faults)
    {
      if faults == [] {
        return false;
      }
      fault := faults[0];
      faults := faults[1..];
    }

    method Begin() returns (ok: bool)
      modifies this`faults, this`working
      ensures ok ==> working == committed
      ensures Calm(old(faults)) ==> ok && Calm(faults)
    {
      var fault := Fault();
      working := committed;
      ok := !fault;
    }

    method Commit() returns (ok: bool)
      modifies this`faults, this`committed
      ensures committed == if ok then working else old(committed)
      ensures Calm(old(faults)) ==> ok && Calm(faults)
    {
      var fault := Fault();
      if !fault {
        committed := working;
      }
      ok := !fault;
    }

    /** Runs one statement: its effect on the transaction, its own refusal, or a fault. */
    method Execute(result: Transaction) returns (failure: Option<Failure>)
      modifies this`faults, this`working
      ensures failure.None? ==> result == Committed(working)
      ensures failure.Some? ==> working == old(working)
      ensures Calm(old(faults)) ==> Calm(faults) && (failure.Some? ==> result == RolledBack(failure.value))
    {
      var fault := Fault();
      if fault {
        return Some(Broken);
      }
      match result
      case RolledBack(why) => failure := Some(why);
      case Committed(tables) =>
        working := tables;
        failure := None;
    }
  }

  class Repository {
    const db: Database
    const fulfil: bool

    constructor (db: Database, fulfil: bool)
      ensures this.db == db && this.fulfil == fulfil
    {
      this.db, this.fulfil := db, fulfil;
    }

    /** Saves an order with its lines and messages, or changes nothing at all. */
    method Save(order: Order) returns (failure: Option<Failure>)
      modifies db, order`events
      ensures failure.None? ==>
                SaveOrder(old(db.committed), old(order.Data()), fulfil) == Committed(db.committed) &&
                order.Data() == old(order.Data()).(events := [])
      ensures failure.Some? ==> db.committed == old(db.committed) && order.Data() == old(order.Data())
      ensures Calm(old(db.faults)) && failure.Some? ==>
                SaveOrder(old(db.committed), old(order.Data()), fulfil) == RolledBack(failure.value)
    {
      var ok := db.Begin();
      if !ok {
        return Some(Broken);
      }
      failure := WriteOrder(order);
      if failure.Some? {
        return;
      }
      ok := db.Commit();
      if !ok {
        return Some(Broken);
      }
      var _ := order.PullEvents();
    }

    /** Saves a new order with the customer and products it refers to, or changes nothing at all. */
    method Place(order: Order, customer: Customer, products: seq<Product>) returns (failure: Option<Failure>)
      modifies db, order`events
      ensures failure.None? ==>
                PlaceOrder(old(db.committed), old(order.Data()), customer, products, fulfil) == Committed(db.committed) &&
                order.Data() == old(order.Data()).(events := [])
      ensures failure.Some? ==> db.committed == old(db.committed) && order.Data() == old(order.Data())
      ensures Calm(old(db.faults)) && failure.Some? ==>
                PlaceOrder(old(db.committed), old(order.Data()), customer, products, fulfil) == RolledBack(failure.value)
    {
      var ok := db.Begin();
      if !ok {
        return Some(Broken);
      }
      failure := db.Execute(Committed(SaveCustomer(db.working, customer)));
      if failure.Some? {
        return;
      }
      ghost var start := db.working;
      var seen: set<Uuid> := {};
      for i := 0 to |products|
        invariant db.committed == old(db.committed) && order.Data() == old(order.Data())
        invariant db.working == AddProducts(start, products[..i])
        invariant forall id :: id in seen ==> id in db.working.products
        invariant Calm(old(db.faults)) ==> Calm(db.faults)
      {
        assert products[..i + 1][..i] == products[..i];
        if products[i].id in seen {
          continue;
        }
        seen := seen + {products[i].id};
        failure := db.Execute(Committed(AddProductIfUnknown(db.working, products[i])));
        if failure.Some? {
          return;
        }
      }
      assert products[..|products|] == products;
      failure := WriteOrder(order);
      if failure.Some? {
        return;
      }
      ok := db.Commit();
      if !ok {
        return Some(Broken);
      }
      var _ := order.PullEvents();
    }

    /** The order's row, then its lines replaced wholesale, then the messages of its events. */
    method WriteOrder(order: Order) returns (failure: Option<Failure>)
      modifies db`working, db`faults
      ensures failure.None? ==> SaveOrder(old(db.working), order.Data(), fulfil) == Committed(db.working)
      ensures Calm(old(db.faults)) ==>
                Calm(db.faults) &&
                (failure.Some? ==> SaveOrder(old(db.working), order.Data(), fulfil) == RolledBack(failure.value))
    {
      ghost var o := order.Data();
      hide Calm, UpsertOrder, InsertItem, Image;
      failure := db.Execute(UpsertOrder(db.working, order.Data()));
      if failure.Some? {
        return;
      }
      failure := db.Execute(Committed(ClearItems(db.working, order.id)));
      if failure.Some? {
        return;
      }
      ghost var cleared := db.working;
      for i := 0 to |order.items|
        invariant InsertItems(cleared, order.id, order.items) == InsertItems(db.working, order.id, order.items[i..])
        invariant Calm(old(db.faults)) ==> Calm(db.faults)
      {
        assert order.items[i..][0] == order.items[i] && order.items[i..][1..] == order.items[i + 1..];
        failure := db.Execute(InsertItem(db.working, order.id, order.items[i]));
        if failure.Some? {
          return;
        }
      }
      failure := StageEvents(order);
    }

    /** Writes one message on the open transaction. */
    method InsertOutboxMessage(message: OutboxRow) returns (failure: Option<Failure>)
      modifies db`working, db`faults
      ensures db.working == if failure.None? then old(db.working).(outbox := old(db.working.outbox) + [message])
                            else old(db.working)
      ensures Calm(old(db.faults)) ==> Calm(db.faults) && failure.None?
    {
      hide Calm;
      failure := db.Execute(Committed(db.working.(outbox := db.working.outbox + [message])));
    }

    method StageEvents(order: Order) returns (failure: Option<Failure>)
      modifies db`working, db`faults
      ensures failure.None? ==>
                db.working == old(db.working).(
                                outbox := old(db.working).outbox + Images(order.Data(), order.events, fulfil))
      ensures Calm(old(db.faults)) ==> Calm(db.faults) && failure.None?
    {
      failure := None;
      ghost var o := order.Data();
      ghost var before := db.working;
      hide Calm, Image, Images;
      NoImages(o, fulfil);
      for i := 0 to |order.events|
        invariant failure.None?
        invariant db.working == before.(outbox := db.working.outbox)
        invariant db.working.outbox + Images(o, order.events[i..], fulfil) == before.outbox + Images(o, order.events, fulfil)
        invariant Calm(old(db.faults)) ==> Calm(db.faults)
      {
        var image := Image(order.Data(), order.events[i], fulfil);
        NextImage(o, order.events, i, fulfil, db.working.outbox);
        if image == [] {
          continue;
        }
        assert image == [image[0]];
        failure := InsertOutboxMessage(image[0]);
        if failure.Some? {
          return;
        }
      }
    }
  }

  lemma {:induction false} NoImages(o: OrderData, fulfil: bool)
    ensures Images(o, [], fulfil) == []
  {
  }

  /** Appending one event's message leaves the messages of the rest to append. */
  lemma {:induction false} NextImage(o: OrderData, events: seq<EventKind>, i: nat, fulfil: bool, outbox: seq<OutboxRow>)
    requires i < |events|
    ensures var image := Image(o, events[i], fulfil);
            && |image| <= 1
            && outbox + Images(o, events[i..], fulfil) == (outbox + image) + Images(o, events[i + 1..], fulfil)
            && (image == [] ==> outbox + image == outbox)
  {
    assert events[i..][0] == events[i] && events[i..][1..] == events[i + 1..];
    var image := Image(o, events[i], fulfil);
    assert |image| <= 1;
    hide Image;
    assert Images(o, events[i..], fulfil) == image + Images(o, events[i + 1..], fulfil);
  }
}
