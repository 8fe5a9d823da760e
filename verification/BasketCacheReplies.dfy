/** What a request to the cached repository answers, call by call: when a read must serve, and when a write may
 *  report an error.
 */
module BasketCacheReplies {
  import opened Calls
  import opened Ids
  import opened Checkout
  import opened BasketCache
  import opened BasketCacheRuns

  /** How the i-th call of a request ends. */
  function EndOf(fates: seq<Fate>, i: nat): Outcome {
    if i < |fates| then fates[i].outcome else Fails(false, false)
  }

  /** Redis answers, with an entry that is readable and carries a version. */
  predicate IsHit(s: Stores, fates: seq<Fate>, user: string) {
    && |fates| > 0 && fates[0].outcome.Succeeds?
    && user in s.cache && user !in fates[0].expired && user !in fates[0].garbled
    && s.cache[user].Entry? && s.cache[user].cart.version != NIL
  }

  lemma {:induction false} FinishUnfolds(s: Stores, c: Call, fates: seq<Fate>)
    ensures var (decayed, o, left) := Waited(s, fates);
            var (after, next) := Perform(decayed, c, o);
            && decayed.table == s.table && o == EndOf(fates, 0)
            && left == (if fates == [] then [] else fates[1..])
            && Finish(s, c, fates)
               == if next.Then? then Finish(after, next.call, left) else Ended(after, left, next.reply)
  {
    hide Perform, Decay;
    if fates != [] { DecayIsOfCache(s, fates); }
  }

  lemma {:induction false} DecayIsOfCache(s: Stores, fates: seq<Fate>)
    requires fates != []
    ensures Decay(s, fates[0]).table == s.table
    ensures forall u :: u in Decay(s, fates[0]).cache <==> u in s.cache && u !in fates[0].expired
    ensures forall u :: u in Decay(s, fates[0]).cache ==>
              Decay(s, fates[0]).cache[u] == if u in fates[0].garbled then Garbled else s.cache[u]
  {
  }

  /** The table's half of a read: after the cache had nothing to offer. */
  lemma {:induction false} TableAnswers(s: Stores, user: string, fates: seq<Fate>)
    ensures var e := Finish(s, ReadTable(user), fates);
            && e.stores.table == s.table
            && e.reply == (if !EndOf(fates, 0).Succeeds? then Failed
                           else if user !in s.table then NotFound
                           else Served(Cart(user, s.table[user].items, s.table[user].version)))
            && (e.reply.Served? && Effective(EndOf(fates, 1)) ==>
                  user in e.stores.cache && e.stores.cache[user] == Entry(e.reply.cart))
  {
    FinishUnfolds(s, ReadTable(user), fates);
    if EndOf(fates, 0).Succeeds? && user in s.table {
      var (decayed, o, left) := Waited(s, fates);
      FinishUnfolds(decayed, Populate(CartOf(user, s.table[user])), left);
      assert EndOf(left, 0) == EndOf(fates, 1);
    }
    hide Finish, Waited, Decay;
  }

  /** A read is served from a usable entry. Otherwise - Redis down, no entry, a garbled one or one without a
   *  version - the table decides alone: its row, not found exactly when there is none, and an error exactly when
   *  the table's own call failed. Filling the cache never turns a read into an error; when it takes effect the
   *  entry is the row. */
  lemma {:induction false} ReadAnswers(s: Stores, user: string, fates: seq<Fate>)
    ensures var e := Finish(s, ReadCache(user), fates);
            && e.stores.table == s.table
            && e.reply == (if IsHit(s, fates, user) then Served(s.cache[user].cart)
                           else if !EndOf(fates, 1).Succeeds? then Failed
                           else if user !in s.table then NotFound
                           else Served(Cart(user, s.table[user].items, s.table[user].version)))
            && (!IsHit(s, fates, user) && e.reply.Served? && Effective(EndOf(fates, 2)) ==>
                  user in e.stores.cache && e.stores.cache[user] == Entry(e.reply.cart))
  {
    FinishUnfolds(s, ReadCache(user), fates);
    if fates != [] { DecayIsOfCache(s, fates); }
    if !IsHit(s, fates, user) {
      var (decayed, o, left) := Waited(s, fates);
      TableAnswers(decayed, user, left);
      assert EndOf(left, 0) == EndOf(fates, 1) && EndOf(left, 1) == EndOf(fates, 2);
    }
    hide Finish, Decay;
  }

  /** A write reports success exactly when both its calls succeeded, and, for a checkout, there was a row; a
   *  checkout says not found exactly when its first call succeeded without a row; anything else is an error. The
   *  row changes exactly when the first call took effect. After success the cache holds the stored cart, or
   *  nothing. */
  lemma {:induction false} WriteAnswers(s: Stores, t: Turn)
    requires !t.request.Reading?
    ensures var e, user := Run(s, t), UserOf(t.request);
            var first, second := EndOf(t.fates, 0), EndOf(t.fates, 1);
            var gone := t.request.CheckingOut? && user !in s.table;
            && e.reply == (if !first.Succeeds? then Failed else if gone then NotFound
                           else if second.Succeeds? then Done else Failed)
            && e.stores.table == (if !Effective(first) then s.table
                                  else if t.request.Storing?
                                  then s.table[user := Basket(t.request.cart.items, t.request.version)]
                                  else s.table - {user})
            && (e.reply.Done? && t.request.Storing? ==>
                  user in e.stores.cache && e.stores.cache[user] == Entry(t.request.cart.(version := t.request.version)))
            && (e.reply.Done? && !t.request.Storing? ==> user !in e.stores.cache)
  {
    var c := First(t.request);
    FinishUnfolds(s, c, t.fates);
    var (decayed, o, left) := Waited(s, t.fates);
    var (after, next) := Perform(decayed, c, o);
    assert EndOf(left, 0) == EndOf(t.fates, 1);
    if next.Then? { FinishUnfolds(after, next.call, left); }
    if t.request.CheckingOut? && UserOf(t.request) !in s.table { assert s.table - {UserOf(t.request)} == s.table; }
    hide Finish, Decay, Waited;
  }

  /** Whoever stores a basket without an error is served just that basket by the next read, from the entry or from
   *  the table; it fails only if Redis had nothing to offer and the table failed. */
  lemma {:induction false} StoredIsServed(s: Stores, t: Turn, fates: seq<Fate>)
    requires t.request.Storing? && t.request.version != NIL && Run(s, t).reply.Done?
    ensures var user := UserOf(t.request);
            var reply := Finish(Run(s, t).stores, ReadCache(user), fates).reply;
            if IsHit(Run(s, t).stores, fates, user) || EndOf(fates, 1).Succeeds?
            then reply == Served(t.request.cart.(version := t.request.version)) else reply == Failed
  {
    WriteAnswers(s, t);
    ReadAnswers(Run(s, t).stores, UserOf(t.request), fates);
    hide Run, Finish;
  }
}
