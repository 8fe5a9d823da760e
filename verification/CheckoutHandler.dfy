/** Basket's side of a checkout as it runs: read the basket, announce it, and commit both changes. */
module CheckoutHandler {
  import opened Calls
  import opened Ids
  import opened Checkout
  import opened Envelopes
  import opened Pipeline
  import opened PipelineRuns
  import Cache = BasketCache

  datatype Answer = Accepted | BadRequest | NotFound | Failed

  /** Which statements of the transaction the database answers before its commit. */
  datatype Statements = Statements(begun: bool, deleted: bool, inserted: bool)

  /** How the transaction ends: one with an unanswered statement is rolled back. */
  function Decided(a: Statements, x: Chance): Chance {
    if a.begun && a.deleted && a.inserted then x else x.(outcome := Fails(false, false))
  }

  /** Only a delete that was answered can say that the basket is gone. */
  predicate FoundGone(table: map<string, Cache.Basket>, user: string, a: Statements) {
    a.begun && a.deleted && user !in table
  }

  /** What the cache in front of the tables learns: a basket found gone is an answer, whatever would have followed. */
  function Learnt(table: map<string, Cache.Basket>, user: string, a: Statements, x: Chance): Outcome {
    if FoundGone(table, user, a) then Succeeds else Decided(a, x).outcome
  }

  function ReplyOf(r: Answer): Cache.Reply {
    match r
    case Accepted => Cache.Done
    case NotFound => Cache.NotFound
    case Failed | BadRequest => Cache.Failed
  }

  /** The baskets and outbox tables, and a transaction open on them. */
  class Database {
    var table: map<string, Cache.Basket>
    var rows: map<Uuid, Row>
    var openTable: map<string, Cache.Basket>
    var openRows: map<Uuid, Row>

    method Begin()
      modifies this`openTable, this`openRows
      ensures openTable == table && openRows == rows
    {
      openTable, openRows := table, rows;
    }

    /** Deletes a basket and says how many rows went. */
    method DeleteBasket(user: string) returns (deleted: nat)
      modifies this`openTable
      ensures openTable == old(openTable) - {user} && (deleted > 0 <==> user in old(openTable))
    {
      deleted := if user in openTable then 1 else 0;
      openTable := openTable - {user};
    }

    /** Inserts an announcement unless one with its id is there. */
    method InsertMessage(e: Envelope, clock: int)
      modifies this`openRows
      ensures openRows == Record(old(openRows), e, clock)
    {
      if e.id !in openRows {
        openRows := openRows[e.id := Row(e, 0, clock, false, 0, 0)];
      }
    }

    /** Makes the transaction's changes visible, if the commit takes effect. */
    method Commit(x: Chance) returns (ok: bool)
      modifies this`table, this`rows
      ensures (table, rows) == if Effective(x.outcome) then (openTable, openRows) else old((table, rows))
      ensures ok == x.outcome.Succeeds?
    {
      if Effective(x.outcome) {
        table, rows := openTable, openRows;
      }
      ok := x.outcome.Succeeds?;
    }

    /** Clears the basket and records its announcement, both or neither. A basket that is gone was
     *  checked out by someone else. */
    method Checkout(user: string, announcement: Envelope, a: Statements, x: Chance) returns (r: Answer)
      modifies this
      ensures (table, rows) == CheckoutTables(old(table), old(rows), user, announcement, Decided(a, x))
      ensures r == NotFound <==> FoundGone(old(table), user, a)
      ensures r == Accepted <==> user in old(table) && Decided(a, x).outcome.Succeeds?
      ensures r != BadRequest
    {
      if !a.begun {
        return Failed;
      }
      Begin();
      if !a.deleted {
        return Failed;
      }
      var deleted := DeleteBasket(user);
      if deleted == 0 {
        return NotFound;
      }
      if !a.inserted {
        return Failed;
      }
      InsertMessage(announcement, x.clock);
      var ok := Commit(x);
      r := if ok then Accepted else Failed;
    }
  }

  /** The repository the handler is given: the tables with the cache in front of them. */
  class Repository {
    const db: Database
    var cache: map<string, Cache.Entry>

    constructor (db: Database)
      ensures this.db == db && cache == map[]
    {
      this.db, cache := db, map[];
    }

    /** Evicts the entry once the tables have changed, and reports it when that fails. On the baskets table and
     *  the cache this is the cached repository's own checkout, two calls that end as the tables and Redis say. */
    method Checkout(user: string, announcement: Envelope, a: Statements, x: Chance, eviction: Outcome)
      returns (r: Answer)
      modifies this, db
      ensures (db.table, db.rows) == CheckoutTables(old(db.table), old(db.rows), user, announcement, Decided(a, x))
      ensures var calls := [Cache.Fate({}, {}, Learnt(old(db.table), user, a, x)), Cache.Fate({}, {}, eviction)];
              var ended := Cache.Finish(old(Cache.Stores(db.table, cache)), Cache.CheckoutRow(user), calls);
              Cache.Stores(db.table, cache) == ended.stores && ReplyOf(r) == ended.reply
      ensures r == NotFound <==> FoundGone(old(db.table), user, a)
      ensures r == Accepted <==> user in old(db.table) && Decided(a, x).outcome.Succeeds? && eviction.Succeeds?
      ensures r != BadRequest
      ensures cache == if user in old(db.table) && Decided(a, x).outcome.Succeeds? && Effective(eviction)
                       then old(cache) - {user} else old(cache)
    {
      CheckoutThenEvict(db.table, cache, user, Learnt(db.table, user, a, x), eviction);
      r := db.Checkout(user, announcement, a, x);
      if r != Accepted {
        return;
      }
      if Effective(eviction) {
        cache := cache - {user};
      }
      r := if eviction.Succeeds? then Accepted else Failed;
    }
  }

  lemma {:induction false} CheckoutThenEvict(table: map<string, Cache.Basket>, cache: map<string, Cache.Entry>,
                                             user: string, learnt: Outcome, eviction: Outcome)
    ensures var calls := [Cache.Fate({}, {}, learnt), Cache.Fate({}, {}, eviction)];
            var ended := Cache.Finish(Cache.Stores(table, cache), Cache.CheckoutRow(user), calls);
            && ended.stores.table == (if Effective(learnt) then table - {user} else table)
            && ended.stores.cache == (if learnt.Succeeds? && user in table && Effective(eviction)
                                      then cache - {user} else cache)
            && ended.reply == if !learnt.Succeeds? then Cache.Failed else if user !in table then Cache.NotFound
                              else if eviction.Succeeds? then Cache.Done else Cache.Failed
  {
    var s := Cache.Stores(table, cache);
    var first, second := Cache.Fate({}, {}, learnt), Cache.Fate({}, {}, eviction);
    assert Cache.Decay(s, first) == s;
    assert [first, second][1..] == [second];
    var (after, next) := Cache.Perform(s, Cache.CheckoutRow(user), learnt);
    assert Cache.Decay(after, second) == after;
    if user !in table { assert table - {user} == table; }
    if next.Then? {
      assert Cache.Finish(s, Cache.CheckoutRow(user), [first, second]) == Cache.Finish(after, next.call, [second]);
    }
  }

  class CheckoutBasketHandler {
    const config: Config
    const repo: Repository

    constructor (config: Config, repo: Repository)
      ensures this.config == config && this.repo == repo
    {
      this.config, this.repo := config, repo;
    }

    /** Checks out the basket the repository served: a basket that is empty, unversioned or nameless
     *  changes nothing, and any other is announced under its derived id in the transaction that
     *  removes the user's row. It is reported as accepted only if its cache entry went too. */
    method Handle(request: Request, served: Cache.Reply, a: Statements, x: Chance, eviction: Outcome)
      returns (r: Answer)
      modifies repo, repo.db
      ensures var db, user := repo.db, request.command.userName;
              var announcement := if served.Served? then Announcement(config, request, served.cart) else None;
              if announcement.None?
              then (db.table, db.rows, repo.cache) == old((repo.db.table, repo.db.rows, repo.cache)) && r != Accepted
              else
                && (db.table, db.rows)
                   == CheckoutTables(old(repo.db.table), old(repo.db.rows), user, announcement.value, Decided(a, x))
                && (r == Accepted <==>
                      user in old(repo.db.table) && Decided(a, x).outcome.Succeeds? && eviction.Succeeds?)
                && repo.cache == if user in old(repo.db.table) && Decided(a, x).outcome.Succeeds? && Effective(eviction)
                                 then old(repo.cache) - {user} else old(repo.cache)
      ensures var user := request.command.userName;
              if served.NotFound? then r == NotFound
              else if !served.Served? then r == Failed
              else if served.cart.items == [] then r == BadRequest
              else if served.cart.version == NIL then r == NotFound
              else if user == "" || config.hash(CheckoutName(user, served.cart.version)) == NIL then r == Failed
              else r == if FoundGone(old(repo.db.table), user, a) then NotFound
                        else if Decided(a, x).outcome.Succeeds? && eviction.Succeeds? then Accepted else Failed
    {
      if !served.Served? {
        return if served.NotFound? then NotFound else Failed;
      }
      var cart := served.cart;
      if |cart.items| == 0 {
        return BadRequest;
      }
      if cart.version == NIL {
        return NotFound;
      }
      var event := CheckoutEvent(request.command, cart);
      var id := CheckoutId(config.hash, request.command.userName, cart.version);
      var announcement := NewEnvelope(event, id, request.correlationId, request.occurredOn, request.command.userName);
      if announcement.None? {
        return Failed;
      }
      hide EventOf, CheckoutName;
      r := repo.Checkout(request.command.userName, announcement.value, a, x, eviction);
    }
  }

  // The handler's two steps of the pipeline.

  predicate LeavesAlone(events: seq<Event>, handler: nat) {
    forall i :: 0 <= i < |events| ==>
      (events[i].BeginCheckout? || events[i].CommitCheckout? || events[i].AbandonCheckout? ==> events[i].handler != handler)
  }

  lemma {:induction false} HandlerStays(c: Config, s: System, handler: nat, middle: seq<Event>)
    requires handler in s.shop.handlers && LeavesAlone(middle, handler)
    ensures var t := StepAll(c, s, middle);
            handler in t.shop.handlers && t.shop.handlers[handler] == s.shop.handlers[handler]
    decreases |middle|
  {
    if |middle| != 0 {
      var t := Step(c, s, middle[0]);
      assert handler in t.shop.handlers && t.shop.handlers[handler] == s.shop.handlers[handler] by {
        hide Announcement, Record, IsDue, CallStore, CallOrdering, CallBroker, Stopped, Crashed, OnWire, Opened;
      }
      hide Step;
      HandlerStays(c, t, handler, middle[1..]);
    }
  }

  /** What the handler does to the tables is what the pipeline's two steps for a checkout do: being served
   *  a cart, then committing, with anything else happening in between that leaves this handler in place. */
  lemma {:induction false} HandlingIsARun(c: Config, s: System, handler: nat, request: Request, cart: Cart,
                                          middle: seq<Event>, a: Statements, x: Chance)
    requires cart in s.shop.stored && cart.userName == request.command.userName
    requires Announcement(c, request, cart).Some? && LeavesAlone(middle, handler)
    ensures var u := StepAll(c, s, [BeginCheckout(handler, request, cart)] + middle);
            var t := StepAll(c, s, [BeginCheckout(handler, request, cart)] + middle + [CommitCheckout(handler, Decided(a, x))]);
            (t.shop.table, t.outbox.rows)
            == CheckoutTables(u.shop.table, u.outbox.rows, request.command.userName,
                              Announcement(c, request, cart).value, Decided(a, x))
  {
    var begin, commit := BeginCheckout(handler, request, cart), CommitCheckout(handler, Decided(a, x));
    var begun := Step(c, s, begin);
    assert begun.shop.handlers[handler] == Handler(cart, Announcement(c, request, cart).value);
    hide Announcement, CheckoutTables;
    HandlerStays(c, begun, handler, middle);
    var u := StepAll(c, begun, middle);
    assert Step(c, u, commit) == Commit(u, handler, Decided(a, x));
    hide Step, Commit;
    assert ([begin] + middle)[1..] == middle && ([begin] + middle + [commit])[1..] == middle + [commit];
    StepAllOfConcat(c, begun, middle, [commit]);
    assert StepAll(c, u, [commit]) == Step(c, u, commit);
  }
}
