/** The Redis copy of a basket and the table behind it.
 *
 *  Every call to Redis or to the table is decided by one Fate: entries that expired or became
 *  unreadable before it, and how it ended. A call can fail and still have taken effect. When the
 *  fates are used up every call fails without effect, which the stores cannot tell from a crash.
 */
module BasketCache {
  import opened Calls
  import opened Ids
  import opened Checkout

  /** A row of the baskets table; the user name is its key. */
  datatype Basket = Basket(items: seq<CartItem>, version: Uuid)

  /** A cache entry, which may be garbled or, written long ago, carry the nil version. */
  datatype Entry = Garbled | Entry(cart: Cart)

  datatype Stores = Stores(table: map<string, Basket>, cache: map<string, Entry>)

  datatype Fate = Fate(expired: set<string>, garbled: set<string>, outcome: Outcome)

  datatype Reply = Served(cart: Cart) | Done | NotFound | Failed

  predicate Usable(e: Entry) {
    e.Entry? && e.cart.version != NIL
  }

  function CartOf(user: string, basket: Basket): Cart {
    Cart(user, basket.items, basket.version)
  }

  function Decay(s: Stores, f: Fate): Stores {
    var left := s.cache - f.expired;
    s.(cache := map u | u in left :: if u in f.garbled then Garbled else left[u])
  }

  // The calls a request makes, one at a time.

  datatype Call =
    | ReadCache(user: string) | ReadTable(user: string) | Populate(cart: Cart)
    | WriteRow(cart: Cart) | Refresh(cart: Cart)
    | DeleteRow(user: string) | CheckoutRow(user: string) | Evict(user: string)

  datatype Next = Then(call: Call) | Returns(reply: Reply)

  function CallsLeft(c: Call): nat {
    match c
    case ReadCache(_) => 3
    case ReadTable(_) | WriteRow(_) | DeleteRow(_) | CheckoutRow(_) => 2
    case Populate(_) | Refresh(_) | Evict(_) => 1
  }

  function SetEntry(s: Stores, cart: Cart, o: Outcome): Stores {
    if Effective(o) then s.(cache := s.cache[cart.userName := Entry(cart)]) else s
  }

  function DropEntry(s: Stores, user: string, o: Outcome): Stores {
    if Effective(o) then s.(cache := s.cache - {user}) else s
  }

  function SetRow(s: Stores, cart: Cart, o: Outcome): Stores {
    if Effective(o) then s.(table := s.table[cart.userName := Basket(cart.items, cart.version)]) else s
  }

  function DropRow(s: Stores, user: string, o: Outcome): Stores {
    if Effective(o) then s.(table := s.table - {user}) else s
  }

  /** What one call does to the stores, and what its request does next. */
  function Perform(s: Stores, c: Call, o: Outcome): (r: (Stores, Next))
    ensures r.1.Then? ==> CallsLeft(r.1.call) < CallsLeft(c)
  {
    match c
    case ReadCache(user) =>
      if o.Succeeds? && user in s.cache && Usable(s.cache[user]) then (s, Returns(Served(s.cache[user].cart)))
      else (s, Then(ReadTable(user)))
    case ReadTable(user) =>
      if !o.Succeeds? then (s, Returns(Failed))
      else if user !in s.table then (s, Returns(NotFound))
      else (s, Then(Populate(CartOf(user, s.table[user]))))
    case Populate(cart) => (SetEntry(s, cart, o), Returns(Served(cart)))
    case WriteRow(cart) => (SetRow(s, cart, o), if o.Succeeds? then Then(Refresh(cart)) else Returns(Failed))
    case Refresh(cart) => (SetEntry(s, cart, o), Returns(if o.Succeeds? then Done else Failed))
    case DeleteRow(user) => (DropRow(s, user, o), if o.Succeeds? then Then(Evict(user)) else Returns(Failed))
    case CheckoutRow(user) =>
      if o.Succeeds? && user !in s.table then (s, Returns(NotFound))
      else (DropRow(s, user, o), if o.Succeeds? then Then(Evict(user)) else Returns(Failed))
    case Evict(user) => (DropEntry(s, user, o), Returns(if o.Succeeds? then Done else Failed))
  }

  datatype Ended = Ended(stores: Stores, fates: seq<Fate>, reply: Reply)

  function Waited(s: Stores, fates: seq<Fate>): (Stores, Outcome, seq<Fate>) {
    if fates == [] then (s, Fails(false, false), []) else (Decay(s, fates[0]), fates[0].outcome, fates[1..])
  }

  /** A request run from one of its calls to its reply, with nothing else in between. */
  function Finish(s: Stores, c: Call, fates: seq<Fate>): Ended
    decreases CallsLeft(c)
  {
    var (decayed, o, left) := Waited(s, fates);
    match Perform(decayed, c, o)
    case (after, Then(next)) => Finish(after, next, left)
    case (after, Returns(reply)) => Ended(after, left, reply)
  }

  // The decorator as it runs.

  datatype Lookup = Hit(entry: Entry) | Miss | Broken

  class Backends {
    var table: map<string, Basket>
    var cache: map<string, Entry>
    var fates: seq<Fate>

    ghost function Now(): Stores
      reads this
    {
      Stores(table, cache)
    }

    method Wait() returns (o: Outcome)
      modifies this
      ensures (Now(), o, fates) == Waited(old(Now()), old(fates))
    {
      if fates == [] {
        return Fails(false, false);
      }
      o := fates[0].outcome;
      var left := cache - fates[0].expired;
      cache := map u | u in left :: if u in fates[0].garbled then Garbled else left[u];
      fates := fates[1..];
    }

    // Redis.

    method Get(user: string) returns (r: Lookup)
      modifies this
      ensures var (s, o, left) := Waited(old(Now()), old(fates));
              && Now() == s && fates == left
              && r == if !o.Succeeds? then Broken else if user in s.cache then Hit(s.cache[user]) else Miss
    {
      var o := Wait();
      r := if !o.Succeeds? then Broken else if user in cache then Hit(cache[user]) else Miss;
    }

    method Set(cart: Cart) returns (ok: bool)
      modifies this
      ensures var (s, o, left) := Waited(old(Now()), old(fates));
              Now() == SetEntry(s, cart, o) && fates == left && ok == o.Succeeds?
    {
      var o := Wait();
      if Effective(o) {
        cache := cache[cart.userName := Entry(cart)];
      }
      ok := o.Succeeds?;
    }

    method Del(user: string) returns (ok: bool)
      modifies this
      ensures var (s, o, left) := Waited(old(Now()), old(fates));
              Now() == DropEntry(s, user, o) && fates == left && ok == o.Succeeds?
    {
      var o := Wait();
      if Effective(o) {
        cache := cache - {user};
      }
      ok := o.Succeeds?;
    }

    // The baskets table.

    method FindRow(user: string) returns (r: Reply)
      modifies this
      ensures var (s, o, left) := Waited(old(Now()), old(fates));
              && Now() == s && fates == left
              && r == if !o.Succeeds? then Failed else if user !in s.table then NotFound
                      else Served(CartOf(user, s.table[user]))
    {
      var o := Wait();
      if !o.Succeeds? {
        return Failed;
      }
      if user !in table {
        return NotFound;
      }
      r := Served(Cart(user, table[user].items, table[user].version));
    }

    /** A cart without a version gets the spare one. */
    method StoreRow(cart: Cart, spare: Uuid) returns (ok: bool)
      modifies this
      ensures var (s, o, left) := Waited(old(Now()), old(fates));
              && Now() == SetRow(s, cart.(version := if cart.version == NIL then spare else cart.version), o)
              && fates == left && ok == o.Succeeds?
    {
      var o := Wait();
      var version := cart.version;
      if version == NIL {
        version := spare;
      }
      if Effective(o) {
        table := table[cart.userName := Basket(cart.items, version)];
      }
      ok := o.Succeeds?;
    }

    method DeleteRow(user: string) returns (ok: bool)
      modifies this
      ensures var (s, o, left) := Waited(old(Now()), old(fates));
              Now() == DropRow(s, user, o) && fates == left && ok == o.Succeeds?
    {
      var o := Wait();
      if Effective(o) {
        table := table - {user};
      }
      ok := o.Succeeds?;
    }

    /** Clears the basket in the transaction that records its checkout. */
    method CheckoutRow(user: string) returns (r: Reply)
      modifies this
      ensures var (s, o, left) := Waited(old(Now()), old(fates));
              && fates == left
              && Now() == DropRow(s, user, o)
              && r == if !o.Succeeds? then Failed else if user in s.table then Done else NotFound
    {
      var o := Wait();
      if o.Succeeds? && user !in table {
        assert table - {user} == table;
        return NotFound;
      }
      if Effective(o) {
        table := table - {user};
      }
      r := if o.Succeeds? then Done else Failed;
    }
  }

  class CachedRepository {
    const stores: Backends

    constructor (stores: Backends)
      ensures this.stores == stores
    {
      this.stores := stores;
    }

    /** Serves from the cache when it can, and fills it from the table when it cannot. */
    method GetByUserName(user: string) returns (r: Reply)
      modifies stores
      ensures Ended(stores.Now(), stores.fates, r) == Finish(old(stores.Now()), ReadCache(user), old(stores.fates))
    {
      hide Waited;
      var cached := stores.Get(user);
      if cached.Hit? && cached.entry.Entry? && cached.entry.cart.version != NIL {
        return Served(cached.entry.cart);
      }
      ghost var all := Finish(stores.Now(), ReadTable(user), stores.fates);
      assert all == Finish(old(stores.Now()), ReadCache(user), old(stores.fates));
      r := stores.FindRow(user);
      if !r.Served? {
        return;
      }
      assert all == Finish(stores.Now(), Populate(r.cart), stores.fates);
      var _ := stores.Set(r.cart);
    }

    /** Writes through under a version chosen here, so the table and the cache hold the same one. */
    method Store(cart: Cart, version: Uuid, spare: Uuid) returns (r: Reply)
      requires version != NIL
      modifies stores
      ensures Ended(stores.Now(), stores.fates, r)
              == Finish(old(stores.Now()), WriteRow(cart.(version := version)), old(stores.fates))
    {
      hide Waited;
      var versioned := cart.(version := version);
      var ok := stores.StoreRow(versioned, spare);
      if !ok {
        return Failed;
      }
      ok := stores.Set(versioned);
      if !ok {
        return Failed;
      }
      r := Done;
    }

    method Delete(user: string) returns (r: Reply)
      modifies stores
      ensures Ended(stores.Now(), stores.fates, r) == Finish(old(stores.Now()), DeleteRow(user), old(stores.fates))
    {
      hide Waited;
      var ok := stores.DeleteRow(user);
      if !ok {
        return Failed;
      }
      ok := stores.Del(user);
      if !ok {
        return Failed;
      }
      r := Done;
    }

    method Checkout(user: string) returns (r: Reply)
      modifies stores
      ensures Ended(stores.Now(), stores.fates, r) == Finish(old(stores.Now()), CheckoutRow(user), old(stores.fates))
    {
      hide Waited;
      ghost var (s, o, left) := Waited(stores.Now(), stores.fates);
      assert user !in s.table ==> s.table - {user} == s.table;
      r := stores.CheckoutRow(user);
      if !r.Done? {
        return;
      }
      var ok := stores.Del(user);
      if !ok {
        return Failed;
      }
    }
  }
}
