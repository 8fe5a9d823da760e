/** Not only ids: what a checkout deletes, announces and becomes, basket by basket. */
module PipelineContents {
  import opened Calls
  import opened Ids
  import opened Checkout
  import opened Envelopes
  import opened Pipeline
  import opened PipelineInvariant
  import opened PipelineSteps
  import opened PipelineRuns
  import Cache = BasketCache

  function IdOf(c: Config, cart: Cart): Uuid {
    CheckoutId(c.hash, cart.userName, cart.version)
  }

  /** Without collisions among stored baskets an id belongs to one basket. */
  lemma {:induction false} OneIdOneBasket(c: Config, shop: Shop, a: Cart, b: Cart)
    requires ShopOk(c, shop) && Collisionless(c, shop.stored) && a in shop.stored && b in shop.stored
    ensures IdOf(c, a) == IdOf(c, b) <==> a == b
  {
    hide CheckoutName, Announces;
    CheckoutNameIsInjective(a.userName, a.version, b.userName, b.version);
  }

  lemma {:induction false} AnnouncedId(c: Config, cart: Cart, e: Envelope)
    requires Announces(c, cart, e)
    ensures e.id == IdOf(c, cart)
  {
    AnnouncedFacts(c, cart, e);
    hide Announces, CheckoutId;
  }

  // Stored baskets stay on record.

  lemma {:induction false} StoredGrows(c: Config, s: System, events: seq<Event>)
    ensures s.shop.stored <= StepAll(c, s, events).shop.stored
    decreases |events|
  {
    if |events| != 0 {
      StoredStep(c, s, events[0]);
      hide Step;
      StoredGrows(c, Step(c, s, events[0]), events[1..]);
    }
  }

  lemma {:induction false} StoredStep(c: Config, s: System, e: Event)
    ensures s.shop.stored <= Step(c, s, e).shop.stored
  {
    hide Announcement, Record, CallStore, CallOrdering, CallBroker, Stopped, Crashed, Opened, IsDue;
  }

  // The content of a committed checkout.

  lemma {:induction false} GenuineIsOfBasket(c: Config, shop: Shop, e: Envelope, cart: Cart)
    requires ShopOk(c, shop) && Collisionless(c, shop.stored) && cart in shop.stored
    requires Genuine(c, shop.stored, e) && e.id == IdOf(c, cart)
    ensures Announces(c, cart, e)
  {
    hide ShopOk, Collisionless, Announces, IdOf;
    var other :| other in shop.stored && Announces(c, other, e);
    AnnouncedId(c, other, e);
    OneIdOneBasket(c, shop, cart, other);
  }

  /** Where the checkout of this very basket can be, and as what. */
  ghost predicate BasketIsSomewhere(c: Config, s: System, cart: Cart) {
    var id := IdOf(c, cart);
    || (id in s.outbox.rows && Announces(c, cart, s.outbox.rows[id].envelope))
    || (exists m :: m in s.broker.queue && Carries(m, id) && Announces(c, cart, EnvelopeFrom(m).value))
    || (exists m :: m in s.broker.errors && Carries(m, id) && Announces(c, cart, EnvelopeFrom(m).value))
    || (exists i :: 0 <= i < |s.ordering.orders| && OrderOf(c, cart, s.ordering.orders[i])
                    && SameGoods(s.ordering.orders[i].placement.order, cart))
  }

  lemma {:induction false} SomewhereIsOfBasket(c: Config, s: System, cart: Cart)
    requires Invariant(c, s) && Collisionless(c, s.shop.stored) && cart in s.shop.stored
    requires Somewhere(s, IdOf(c, cart))
    ensures BasketIsSomewhere(c, s, cart)
  {
    var id := IdOf(c, cart);
    hide ShopOk, BooksOk, CountsOk, StageOk, NothingLost, Announces, IdOf, EnvelopeFrom, OrderOf, SameGoods, Collisionless;
    if id in s.outbox.rows {
      GenuineIsOfBasket(c, s.shop, s.outbox.rows[id].envelope, cart);
    } else if m :| m in s.broker.queue && Carries(m, id) {
      GenuineIsOfBasket(c, s.shop, EnvelopeFrom(m).value, cart);
    } else if m :| m in s.broker.errors && Carries(m, id) {
      GenuineIsOfBasket(c, s.shop, EnvelopeFrom(m).value, cart);
    } else {
      var i :| 0 <= i < |s.ordering.orders| && s.ordering.orders[i].messageId == id;
      var other :| other in s.shop.stored && OrderOf(c, other, s.ordering.orders[i]);
      OrderOfBasket(c, other, s.ordering.orders[i]);
      assert IdOf(c, other) == id by { IdOfOrder(c, other, s.ordering.orders[i]); }
      OneIdOneBasket(c, s.shop, cart, other);
      OrderHasGoods(c, cart, s.ordering.orders[i]);
    }
  }

  lemma {:induction false} IdOfOrder(c: Config, cart: Cart, p: Placed)
    requires OrderOf(c, cart, p)
    ensures p.messageId == IdOf(c, cart)
  {
    OrderOfBasket(c, cart, p);
    hide OrderOf;
  }

  /** From the moment a checkout takes effect, through every crash, redelivery and failure that follows: the
   *  basket its handler was served is announced in the outbox table, in the queue or in the error queue, or
   *  is an order with that basket's lines and total. */
  lemma {:induction false} CheckoutKeepsItsBasket(c: Config, s: System, before: seq<Event>, handler: nat, x: Chance,
                                                  after: seq<Event>)
    requires Fresh(s)
    requires var u := StepAll(c, s, before);
             && handler in u.shop.handlers && u.shop.handlers[handler].cart.userName in u.shop.table
             && Effective(x.outcome)
    ensures var u := StepAll(c, s, before);
            var t := StepAll(c, Step(c, u, CommitCheckout(handler, x)), after);
            Collisionless(c, t.shop.stored) ==> BasketIsSomewhere(c, t, u.shop.handlers[handler].cart)
  {
    var u := StepAll(c, s, before);
    var v := Step(c, u, CommitCheckout(handler, x));
    var t := StepAll(c, v, after);
    var h := u.shop.handlers[handler];
    CheckoutIsNeverLost(c, s, before, handler, x, after);
    ReachableKeeps(c, s, before);
    StoredStep(c, u, CommitCheckout(handler, x));
    StepKeeps(c, u, CommitCheckout(handler, x));
    hide Step, StepAll, Somewhere, Collisionless, BasketIsSomewhere, Fresh;
    StoredGrows(c, v, after);
    RunKeeps(c, v, after);
    HandlersAreServedStored(c, u, handler);
    hide Invariant;
    if Collisionless(c, t.shop.stored) { SomewhereIsOfBasket(c, t, h.cart); }
  }

  lemma {:induction false} HandlersAreServedStored(c: Config, s: System, handler: nat)
    requires Invariant(c, s) && handler in s.shop.handlers
    ensures var h := s.shop.handlers[handler];
            h.cart in s.shop.stored && Announces(c, h.cart, h.announcement) && h.announcement.id == IdOf(c, h.cart)
  {
    var h := s.shop.handlers[handler];
    hide RowsOk, BooksOk, QueueOk, ErrorsOk, OrdersOk, CountsOk, StageOk, NothingLost, Announces, IdOf;
    AnnouncedId(c, h.cart, h.announcement);
  }

  /** Two handlers in progress announce one id exactly when they were served one basket, so a double click
   *  records one message and a basket filled again records another. */
  lemma {:induction false} RacingHandlersShareOneId(c: Config, s: System, events: seq<Event>, g: nat, h: nat)
    requires Fresh(s)
    requires var t := StepAll(c, s, events);
             g in t.shop.handlers && h in t.shop.handlers && Collisionless(c, t.shop.stored)
    ensures var t := StepAll(c, s, events);
            t.shop.handlers[g].announcement.id == t.shop.handlers[h].announcement.id
            <==> t.shop.handlers[g].cart == t.shop.handlers[h].cart
  {
    ReachableKeeps(c, s, events);
    var t := StepAll(c, s, events);
    HandlersAreServedStored(c, t, g);
    HandlersAreServedStored(c, t, h);
    hide StepAll, RowsOk, BooksOk, QueueOk, ErrorsOk, OrdersOk, CountsOk, StageOk, NothingLost, ShopOk, Collisionless, IdOf;
    OneIdOneBasket(c, t.shop, t.shop.handlers[g].cart, t.shop.handlers[h].cart);
  }

  // The basket that is deleted.

  /** No basket in the table was announced before, and every announced id is of a basket that was stored. */
  ghost predicate Unannounced(c: Config, shop: Shop, committed: set<Uuid>) {
    && (forall u :: u in shop.table ==> IdOf(c, Cache.CartOf(u, shop.table[u])) !in committed)
    && (forall id :: id in committed ==> exists a :: a in shop.stored && IdOf(c, a) == id)
  }

  ghost predicate TableIsUnannounced(c: Config, s: System) {
    Unannounced(c, s.shop, s.committed)
  }

  /** Announcing a basket whose row goes leaves the other rows unannounced. */
  lemma {:induction false} OneMoreAnnounced(c: Config, shop: Shop, after: Shop, committed: set<Uuid>, cart: Cart)
    requires ShopOk(c, shop) && Collisionless(c, shop.stored) && Unannounced(c, shop, committed) && cart in shop.stored
    requires after.stored == shop.stored && cart.userName !in after.table
    requires forall u :: u in after.table ==> u in shop.table && after.table[u] == shop.table[u]
    ensures Unannounced(c, after, committed + {IdOf(c, cart)})
  {
    assert forall u :: u in shop.table ==> Cache.CartOf(u, shop.table[u]) in shop.stored by { hide Announces; }
    hide ShopOk, Collisionless, IdOf;
    forall u | u in after.table ensures IdOf(c, Cache.CartOf(u, after.table[u])) !in committed + {IdOf(c, cart)} {
      OneIdOneBasket(c, shop, cart, Cache.CartOf(u, shop.table[u]));
    }
  }

  /** A commit announces one id and removes that user's basket, or neither. */
  lemma {:induction false} CommitShape(s: System, handler: nat, x: Chance)
    requires handler in s.shop.handlers
    ensures var t, h := Commit(s, handler, x), s.shop.handlers[handler];
            && t.shop.stored == s.shop.stored
            && (t.committed == s.committed
                || (t.committed == s.committed + {h.announcement.id} && h.cart.userName !in t.shop.table))
            && (forall u :: u in t.shop.table ==> u in s.shop.table && t.shop.table[u] == s.shop.table[u])
            && (h.cart.userName in s.shop.table && Effective(x.outcome) ==>
                  h.cart.userName !in t.shop.table && t.committed == s.committed + {h.announcement.id})
  {
    hide Record;
  }

  lemma {:induction false} CommitKeepsUnannounced(c: Config, s: System, handler: nat, x: Chance)
    requires Invariant(c, s) && Collisionless(c, s.shop.stored) && TableIsUnannounced(c, s) && handler in s.shop.handlers
    ensures TableIsUnannounced(c, Commit(s, handler, x))
  {
    var h := s.shop.handlers[handler];
    var t := Commit(s, handler, x);
    HandlersAreServedStored(c, s, handler);
    TableIsStored(c, s);
    CommitShape(s, handler, x);
    hide Invariant, Announces, IdOf, Collisionless, Commit, ShopOk, Effective;
    if t.committed == s.committed {
      assert TableIsUnannounced(c, t);
    } else {
      hide Unannounced;
      OneMoreAnnounced(c, s.shop, t.shop, s.committed, h.cart);
    }
  }

  lemma {:induction false} TableIsStored(c: Config, s: System)
    requires Invariant(c, s)
    ensures ShopOk(c, s.shop) && forall u :: u in s.shop.table ==> Cache.CartOf(u, s.shop.table[u]) in s.shop.stored
  {
    hide RowsOk, BooksOk, QueueOk, ErrorsOk, OrdersOk, CountsOk, StageOk, NothingLost, Announces;
  }

  lemma {:induction false} StoreKeepsUnannounced(c: Config, s: System, cart: Cart)
    requires Invariant(c, s) && TableIsUnannounced(c, s)
    requires cart.version != NIL && cart.version !in s.shop.versions
    requires Collisionless(c, s.shop.stored + {cart})
    ensures TableIsUnannounced(c, Step(c, s, StoreBasket(cart)))
  {
    var t := Step(c, s, StoreBasket(cart));
    StoreKeeps(c, s, cart);
    TableIsStored(c, s);
    TableIsStored(c, t);
    assert t.shop.stored == s.shop.stored + {cart} && t.committed == s.committed;
    assert forall a :: a in s.shop.stored ==> a != cart by { hide Announces; }
    hide Invariant, IdOf, Collisionless, ShopOk, Announces;
    forall a | a in s.shop.stored ensures IdOf(c, a) != IdOf(c, cart) { OneIdOneBasket(c, t.shop, a, cart); }
    assert Cache.CartOf(cart.userName, t.shop.table[cart.userName]) == cart;
  }

  lemma {:induction false} StepKeepsUnannounced(c: Config, s: System, e: Event)
    requires Invariant(c, s) && TableIsUnannounced(c, s) && Collisionless(c, Step(c, s, e).shop.stored)
    ensures TableIsUnannounced(c, Step(c, s, e))
  {
    hide Invariant, IdOf, Collisionless, Announcement, Record, CallStore, CallOrdering, CallBroker, Stopped, Crashed, Opened,
         IsDue, Commit;
    if e.StoreBasket? && e.cart.version != NIL && e.cart.version !in s.shop.versions {
      StoreKeepsUnannounced(c, s, e.cart);
    } else if e.CommitCheckout? && e.handler in s.shop.handlers {
      CommitShape(s, e.handler, e.x);
      CommitKeepsUnannounced(c, s, e.handler, e.x);
    }
  }

  lemma {:induction false} FewerStoredCollideLess(c: Config, some: set<Cart>, all: set<Cart>)
    requires some <= all && Collisionless(c, all)
    ensures Collisionless(c, some)
  {
    hide CheckoutId, CheckoutName;
  }

  lemma {:induction false} RunKeepsUnannounced(c: Config, s: System, events: seq<Event>)
    requires Invariant(c, s) && TableIsUnannounced(c, s) && Collisionless(c, StepAll(c, s, events).shop.stored)
    ensures TableIsUnannounced(c, StepAll(c, s, events))
    decreases |events|
  {
    if |events| != 0 {
      hide Step, Invariant, TableIsUnannounced, Collisionless;
      var t := Step(c, s, events[0]);
      StoredGrows(c, t, events[1..]);
      FewerStoredCollideLess(c, t.shop.stored, StepAll(c, s, events).shop.stored);
      StepKeeps(c, s, events[0]);
      StepKeepsUnannounced(c, s, events[0]);
      RunKeepsUnannounced(c, t, events[1..]);
    }
  }

  /** A checkout that takes effect deletes the row under the user's name, whatever basket that is. The basket
   *  deleted is the one the announcement was built from, and is announced at all by then, if and only if
   *  its version is still the one the handler was served. */
  lemma {:induction false} DeletedIsAnnouncedIffUnchanged(c: Config, s: System, events: seq<Event>, handler: nat, x: Chance)
    requires Fresh(s)
    requires var u := StepAll(c, s, events);
             && handler in u.shop.handlers && u.shop.handlers[handler].cart.userName in u.shop.table
             && Effective(x.outcome) && Collisionless(c, u.shop.stored)
    ensures var u := StepAll(c, s, events);
            var Handler(cart, announcement) := u.shop.handlers[handler];
            var deleted := Cache.CartOf(cart.userName, u.shop.table[cart.userName]);
            var t := Step(c, u, CommitCheckout(handler, x));
            && cart.userName !in t.shop.table && announcement.id in t.committed
            && (Announces(c, deleted, announcement) <==> deleted.version == cart.version)
            && (IdOf(c, deleted) in t.committed <==> deleted.version == cart.version)
  {
    var u := StepAll(c, s, events);
    ReachableKeeps(c, s, events);
    assert TableIsUnannounced(c, s);
    FreshKeeps(c, s);
    RunKeepsUnannounced(c, s, events);
    hide StepAll, Fresh;
    DeletedInState(c, u, handler, x);
  }

  lemma {:induction false} CommitStep(c: Config, s: System, handler: nat, x: Chance)
    requires handler in s.shop.handlers
    ensures Step(c, s, CommitCheckout(handler, x)) == Commit(s, handler, x)
  {
    hide Commit;
  }

  lemma {:induction false} DeletedInState(c: Config, u: System, handler: nat, x: Chance)
    requires Invariant(c, u) && TableIsUnannounced(c, u) && Collisionless(c, u.shop.stored) && handler in u.shop.handlers
    requires u.shop.handlers[handler].cart.userName in u.shop.table && Effective(x.outcome)
    ensures var Handler(cart, announcement) := u.shop.handlers[handler];
            var deleted := Cache.CartOf(cart.userName, u.shop.table[cart.userName]);
            var t := Step(c, u, CommitCheckout(handler, x));
            && cart.userName !in t.shop.table && announcement.id in t.committed
            && (Announces(c, deleted, announcement) <==> deleted.version == cart.version)
            && (IdOf(c, deleted) in t.committed <==> deleted.version == cart.version)
  {
    var Handler(cart, announcement) := u.shop.handlers[handler];
    var deleted := Cache.CartOf(cart.userName, u.shop.table[cart.userName]);
    var t := Step(c, u, CommitCheckout(handler, x));
    CommitShape(u, handler, x);
    CommitStep(c, u, handler, x);
    HandlersAreServedStored(c, u, handler);
    TableIsStored(c, u);
    hide Step, Commit, Invariant, Collisionless, Announces, IdOf, ShopOk;
    assert IdOf(c, deleted) !in u.committed by { hide Effective; }
    hide TableIsUnannounced;
    OneIdOneBasket(c, u.shop, cart, deleted);
    VersionTells(c, u.shop, cart, deleted);
    if Announces(c, deleted, announcement) { AnnouncedId(c, deleted, announcement); }
  }

  lemma {:induction false} VersionTells(c: Config, shop: Shop, a: Cart, b: Cart)
    requires ShopOk(c, shop) && a in shop.stored && b in shop.stored
    ensures a.version == b.version ==> a == b
  {
    hide Announces;
  }

  /** The input on which it fails: a basket stored after the handler was served an earlier one is deleted,
   *  and only the earlier one is announced. */
  lemma {:induction false} BasketStoredInBetweenIsLost(c: Config, s: System, r: Request, a: Cart, b: Cart, x: Chance)
    requires Fresh(s) && a.userName == b.userName == r.command.userName && Announcement(c, r, a).Some?
    requires a.version != NIL && b.version != NIL && a.version != b.version
    requires a.version !in s.shop.versions && b.version !in s.shop.versions && Effective(x.outcome)
    ensures var u := StepAll(c, s, [StoreBasket(a), BeginCheckout(0, r, a), StoreBasket(b)]);
            var t := Step(c, u, CommitCheckout(0, x));
            && 0 in u.shop.handlers && a.userName in u.shop.table
            && Cache.CartOf(a.userName, u.shop.table[a.userName]) == b
            && a.userName !in t.shop.table && t.committed == {IdOf(c, a)}
            && t.outbox.rows.Keys == {IdOf(c, a)} && t.outbox.rows[IdOf(c, a)].envelope == Announcement(c, r, a).value
  {
    var e := Announcement(c, r, a).value;
    var events := [StoreBasket(a), BeginCheckout(0, r, a), StoreBasket(b)];
    assert e.id == IdOf(c, a);
    hide Announcement, IdOf;
    var s1 := Step(c, s, events[0]);
    var s2 := Step(c, s1, events[1]);
    var s3 := Step(c, s2, events[2]);
    assert events[1..][0] == events[1] && events[1..][1..] == events[2..] && events[2..] == [events[2]] && events[2..][1..] == [];
    assert StepAll(c, s, events) == StepAll(c, s1, events[1..]) == StepAll(c, s2, events[2..]) == s3;
    assert s3.shop.handlers == map[0 := Handler(a, e)] && s3.outbox.rows == map[] && s3.committed == {};
  }
}
