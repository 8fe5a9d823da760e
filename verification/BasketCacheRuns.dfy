/** What the Redis copy of a basket is worth: it agrees with the table unless a write said it failed,
 *  and whatever the interleaving, what it serves was really stored.
 */
module BasketCacheRuns {
  import opened Calls
  import opened Ids
  import opened Checkout
  import opened BasketCache

  datatype Request = Reading(user: string) | Storing(cart: Cart, version: Uuid) | Deleting(user: string)
                   | CheckingOut(user: string)

  function UserOf(r: Request): string {
    if r.Storing? then r.cart.userName else r.user
  }

  function First(r: Request): Call {
    match r
    case Reading(user) => ReadCache(user)
    case Storing(cart, version) => WriteRow(cart.(version := version))
    case Deleting(user) => DeleteRow(user)
    case CheckingOut(user) => CheckoutRow(user)
  }

  // One request after another.

  datatype Turn = Turn(request: Request, fates: seq<Fate>)

  /** The stores, and the users whose last write ended in an error, writes answered by not found left out:
   *  such a checkout changes neither copy. */
  datatype Log = Log(stores: Stores, doubtful: set<string>)

  function Run(s: Stores, t: Turn): Ended {
    Finish(s, First(t.request), t.fates)
  }

  function Serve(l: Log, t: Turn): Log {
    var e := Run(l.stores, t);
    var user := UserOf(t.request);
    Log(e.stores,
        if t.request.Reading? || e.reply.NotFound? then l.doubtful
        else if e.reply.Done? then l.doubtful - {user}
        else l.doubtful + {user})
  }

  function ServeAll(l: Log, turns: seq<Turn>): Log
    decreases |turns|
  {
    if turns == [] then l else ServeAll(Serve(l, turns[0]), turns[1..])
  }

  /** A usable entry for the user is the user's row, items and version. */
  predicate Agrees(s: Stores, user: string) {
    user in s.cache && Usable(s.cache[user]) ==>
      user in s.table && s.cache[user].cart == CartOf(user, s.table[user])
  }

  function SubjectOf(c: Call): string {
    match c
    case ReadCache(user) => user
    case ReadTable(user) => user
    case Populate(cart) => cart.userName
    case WriteRow(cart) => cart.userName
    case Refresh(cart) => cart.userName
    case DeleteRow(user) => user
    case CheckoutRow(user) => user
    case Evict(user) => user
  }

  lemma {:induction false} OthersStay(s: Stores, c: Call, fates: seq<Fate>, user: string)
    requires user != SubjectOf(c) && Agrees(s, user)
    ensures Agrees(Finish(s, c, fates).stores, user)
    decreases CallsLeft(c)
  {
    var (decayed, o, left) := Waited(s, fates);
    var (after, next) := Perform(decayed, c, o);
    if next.Then? { OthersStay(after, next.call, left, user); }
  }

  /** In every state: a read of a user whose entry agrees answers with the row itself, says not found
   *  only when there is no row, and leaves the entry agreeing. */
  lemma {:induction false} AgreeingReadIsTrue(s: Stores, user: string, fates: seq<Fate>)
    requires Agrees(s, user)
    ensures var e := Finish(s, ReadCache(user), fates);
            && e.stores.table == s.table && Agrees(e.stores, user)
            && (e.reply.Served? ==> user in s.table && e.reply.cart == CartOf(user, s.table[user]))
            && (e.reply.NotFound? ==> user !in s.table)
            && !e.reply.Done?
  {
    var (s1, o1, f1) := Waited(s, fates);
    assert s1.table == s.table && Agrees(s1, user);
    var (t1, n1) := Perform(s1, ReadCache(user), o1);
    if n1.Then? {
      var (s2, o2, f2) := Waited(t1, f1);
      assert s2.table == s.table && Agrees(s2, user);
      var (t2, n2) := Perform(s2, ReadTable(user), o2);
      assert Finish(s, ReadCache(user), fates) == Finish(t1, ReadTable(user), f1);
      if n2.Then? {
        assert Finish(t1, ReadTable(user), f1) == Finish(t2, n2.call, f2);
      }
    }
  }

  /** In every state: a write that returns without an error leaves its user's entry agreeing, whatever
   *  was cached before; a basket stored without an error is the row. */
  lemma {:induction false} WriteThatReturnsHeals(s: Stores, t: Turn)
    requires !t.request.Reading? && Run(s, t).reply.Done?
    ensures var user := UserOf(t.request);
            var after := Run(s, t).stores;
            && Agrees(after, user)
            && (t.request.Storing? ==>
                  user in after.table && after.table[user] == Basket(t.request.cart.items, t.request.version))
            && (!t.request.Storing? ==> user !in after.table)
  {
    var c := First(t.request);
    var (s1, o1, f1) := Waited(s, t.fates);
    var (t1, n1) := Perform(s1, c, o1);
    if n1.Then? {
      var (s2, o2, f2) := Waited(t1, f1);
      assert Run(s, t) == Finish(t1, n1.call, f1);
    }
  }

  lemma {:induction false} LastCallReplies(s: Stores, c: Call, fates: seq<Fate>)
    requires c.Refresh? || c.Evict?
    ensures var reply := Finish(s, c, fates).reply; reply.Done? || reply.Failed?
  {
  }

  lemma {:induction false} NotFoundChangesNothing(s: Stores, t: Turn)
    requires !t.request.Reading?
    ensures Run(s, t).reply.NotFound? ==>
              && t.request.CheckingOut? && t.request.user !in s.table && Run(s, t).stores.table == s.table
              && (Agrees(s, t.request.user) ==> Agrees(Run(s, t).stores, t.request.user))
  {
    var (s1, o1, f1) := Waited(s, t.fates);
    var (t1, n1) := Perform(s1, First(t.request), o1);
    if n1.Then? {
      LastCallReplies(t1, n1.call, f1);
    }
  }

  ghost predicate AllButDoubtfulAgree(l: Log) {
    forall u :: u !in l.doubtful ==> Agrees(l.stores, u)
  }

  lemma {:induction false} ServeKeeps(l: Log, t: Turn)
    requires AllButDoubtfulAgree(l)
    ensures AllButDoubtfulAgree(Serve(l, t))
  {
    var user := UserOf(t.request);
    forall u | u !in Serve(l, t).doubtful ensures Agrees(Serve(l, t).stores, u) {
      if u != user {
        OthersStay(l.stores, First(t.request), t.fates, u);
      } else if t.request.Reading? {
        AgreeingReadIsTrue(l.stores, user, t.fates);
      } else if Run(l.stores, t).reply.Done? {
        WriteThatReturnsHeals(l.stores, t);
      } else {
        NotFoundChangesNothing(l.stores, t);
      }
      hide Finish, Agrees;
    }
  }

  /** Over every sequential run, with any failures and any expiry: an entry that disagrees with the
   *  table belongs to a user whose last write, not counting checkouts answered by not found, returned an
   *  error. */
  lemma {:induction false} StaleOnlyAfterAFailedWrite(l: Log, turns: seq<Turn>)
    requires AllButDoubtfulAgree(l)
    ensures AllButDoubtfulAgree(ServeAll(l, turns))
    decreases |turns|
  {
    if turns != [] {
      ServeKeeps(l, turns[0]);
      hide AllButDoubtfulAgree, Serve;
      StaleOnlyAfterAFailedWrite(Serve(l, turns[0]), turns[1..]);
    }
  }

  predicate SparedBy(turns: seq<Turn>, user: string) {
    forall i, j :: 0 <= i < |turns| && 0 <= j < |turns[i].fates| ==>
      user !in turns[i].fates[j].expired && user !in turns[i].fates[j].garbled
  }

  lemma {:induction false} CheckoutOfNothing(s: Stores, user: string, fates: seq<Fate>)
    requires user !in s.table
    requires fates != [] ==> user !in fates[0].expired && user !in fates[0].garbled
    ensures var e := Finish(s, CheckoutRow(user), fates);
            && (e.reply.NotFound? || e.reply.Failed?)
            && e.stores.table == s.table
            && (user in e.stores.cache <==> user in s.cache)
            && (user in s.cache ==> e.stores.cache[user] == s.cache[user])
  {
    assert s.table - {user} == s.table;
  }

  /** Once the row is gone, checking out again never heals a surviving entry: however often it is
   *  retried and however each try ends, the entry stays until it expires or is garbled, and no try
   *  reports success. */
  lemma {:induction false} RetriedCheckoutDoesNotHeal(l: Log, user: string, turns: seq<Turn>)
    requires user !in l.stores.table
    requires forall t :: t in turns ==> t.request == CheckingOut(user)
    requires SparedBy(turns, user)
    ensures var after := ServeAll(l, turns).stores;
            && after.table == l.stores.table
            && (user in after.cache <==> user in l.stores.cache)
            && (user in l.stores.cache ==> after.cache[user] == l.stores.cache[user])
            && (Agrees(after, user) <==> Agrees(l.stores, user))
    ensures forall i :: 0 <= i < |turns| ==> !Run(ServeAll(l, turns[..i]).stores, turns[i]).reply.Done?
    decreases |turns|
  {
    if turns != [] {
      assert turns[0] in turns;
      CheckoutOfNothing(l.stores, user, turns[0].fates);
      var next := Serve(l, turns[0]);
      assert forall t :: t in turns[1..] ==> t in turns;
      assert forall i :: 0 <= i < |turns[1..]| ==> turns[1..][i] == turns[i + 1];
      RetriedCheckoutDoesNotHeal(next, user, turns[1..]);
      forall i | 0 <= i < |turns| ensures !Run(ServeAll(l, turns[..i]).stores, turns[i]).reply.Done? {
        if i > 0 {
          assert turns[..i][0] == turns[0] && turns[..i][1..] == turns[1..][..i - 1];
          assert turns[i] == turns[1..][i - 1];
        }
      }
    }
  }

  /** A checkout whose entry cannot be removed takes the row and reports an error, and the next read
   *  that reaches Redis serves the basket that was already checked out. */
  lemma {:induction false} SurvivingEntryIsServed(s: Stores, user: string)
    requires user in s.table && user in s.cache && Usable(s.cache[user])
    ensures var e := Finish(s, CheckoutRow(user), [Fate({}, {}, Succeeds), Fate({}, {}, Fails(false, false))]);
            && e.reply == Failed && user !in e.stores.table
            && Finish(e.stores, ReadCache(user), [Fate({}, {}, Succeeds)]).reply == Served(s.cache[user].cart)
  {
    var ok, lost := Fate({}, {}, Succeeds), Fate({}, {}, Fails(false, false));
    assert [ok, lost][1..] == [lost];
    var d := Decay(s, ok);
    assert d.cache[user] == s.cache[user];
    var t := DropRow(d, user, Succeeds);
    assert Finish(s, CheckoutRow(user), [ok, lost]) == Finish(t, Evict(user), [lost]);
    var e := Decay(t, lost);
    assert Finish(t, Evict(user), [lost]).stores == e && e.cache[user] == s.cache[user];
  }

  // Requests that overlap.

  /** Every request in progress by number, with the call it makes next. */
  datatype Shared = Shared(
    stores: Stores,
    jobs: map<nat, Call>,
    versions: set<Uuid>,
    stored: set<Cart>,
    served: seq<(string, Cart)>)

  datatype Event =
    | Begin(job: nat, request: Request)
    | Advance(job: nat, fate: Fate)
    | Abandon(job: nat)

  /** Versions are fresh UUIDs: never nil and never used before. */
  predicate Admissible(s: Shared, r: Request) {
    r.Storing? ==> r.version != NIL && r.version !in s.versions
  }

  function Step(s: Shared, e: Event): Shared {
    match e
    case Begin(job, request) =>
      if job in s.jobs || !Admissible(s, request) then s
      else s.(jobs := s.jobs[job := First(request)],
              versions := if request.Storing? then s.versions + {request.version} else s.versions)
    case Abandon(job) => s.(jobs := s.jobs - {job})
    case Advance(job, fate) =>
      if job !in s.jobs then s
      else
        var call := s.jobs[job];
        var (after, next) := Perform(Decay(s.stores, fate), call, fate.outcome);
        s.(stores := after,
           jobs := if next.Then? then s.jobs[job := next.call] else s.jobs - {job},
           stored := if call.WriteRow? && Effective(fate.outcome) then s.stored + {call.cart} else s.stored,
           served := if next.Returns? && next.reply.Served? then s.served + [(SubjectOf(call), next.reply.cart)]
                     else s.served)
  }

  function StepAll(s: Shared, events: seq<Event>): Shared
    decreases |events|
  {
    if events == [] then s else StepAll(Step(s, events[0]), events[1..])
  }

  /** Carts a call is about to write to the cache were stored; a cart about to be written to the
   *  table is the only one with its version. */
  ghost predicate CallIsHonest(s: Shared, job: nat)
    requires job in s.jobs
  {
    match s.jobs[job]
    case Populate(cart) => cart in s.stored
    case Refresh(cart) => cart in s.stored
    case WriteRow(cart) =>
      && cart.version != NIL && cart.version in s.versions
      && (forall d :: d in s.stored ==> d.version != cart.version)
      && (forall other :: other in s.jobs && other != job && s.jobs[other].WriteRow? ==>
            s.jobs[other].cart.version != cart.version)
    case _ => true
  }

  ghost predicate EntriesAreStored(s: Stores, stored: set<Cart>) {
    && (forall u :: u in s.table ==> CartOf(u, s.table[u]) in stored)
    && (forall u :: u in s.cache && Usable(s.cache[u]) ==> s.cache[u].cart in stored && s.cache[u].cart.userName == u)
  }

  ghost predicate VersionsIdentify(stored: set<Cart>, versions: set<Uuid>) {
    && (forall c :: c in stored ==> c.version != NIL && c.version in versions)
    && (forall c, d :: c in stored && d in stored && c.version == d.version ==> c == d)
  }

  ghost predicate Honest(s: Shared) {
    && EntriesAreStored(s.stores, s.stored)
    && VersionsIdentify(s.stored, s.versions)
    && (forall job :: job in s.jobs ==> CallIsHonest(s, job))
    && (forall i :: 0 <= i < |s.served| ==> s.served[i].1 in s.stored && s.served[i].1.userName == s.served[i].0)
  }

  lemma {:induction false} DecayKeepsStored(s: Stores, f: Fate, stored: set<Cart>)
    requires EntriesAreStored(s, stored)
    ensures EntriesAreStored(Decay(s, f), stored)
  {
  }

  /** One call keeps both copies among the stored carts and serves only such carts. */
  lemma {:induction false} PerformKeepsStored(s: Stores, c: Call, o: Outcome, stored: set<Cart>)
    requires EntriesAreStored(s, stored)
    requires c.Populate? || c.Refresh? ==> c.cart in stored
    ensures var (after, next) := Perform(s, c, o);
            && EntriesAreStored(after, if c.WriteRow? && Effective(o) then stored + {c.cart} else stored)
            && (next.Returns? && next.reply.Served? ==>
                  next.reply.cart in stored && next.reply.cart.userName == SubjectOf(c))
            && (next.Then? ==>
                  && !next.call.WriteRow?
                  && (next.call.Populate? ==> next.call.cart in stored)
                  && (next.call.Refresh? ==> c.WriteRow? && Effective(o) && next.call.cart == c.cart))
  {
  }

  lemma {:induction false} AdvanceKeepsHonest(s: Shared, job: nat, fate: Fate)
    requires Honest(s) && job in s.jobs
    ensures Honest(Step(s, Advance(job, fate)))
  {
    var call := s.jobs[job];
    assert CallIsHonest(s, job);
    var d := Decay(s.stores, fate);
    DecayKeepsStored(s.stores, fate, s.stored);
    PerformKeepsStored(d, call, fate.outcome, s.stored);
    hide Perform, Decay, EntriesAreStored, SubjectOf;
    var after := Step(s, Advance(job, fate));
    forall other | other in after.jobs ensures CallIsHonest(after, other) {
      if other != job { assert CallIsHonest(s, other); }
    }
  }

  lemma {:induction false} BeginKeepsHonest(s: Shared, job: nat, request: Request)
    requires Honest(s)
    ensures Honest(Step(s, Begin(job, request)))
  {
    hide EntriesAreStored;
    var after := Step(s, Begin(job, request));
    forall other | other in after.jobs ensures CallIsHonest(after, other) {
      if other in s.jobs { assert CallIsHonest(s, other); }
    }
  }

  lemma {:induction false} StepKeepsHonest(s: Shared, e: Event)
    requires Honest(s)
    ensures Honest(Step(s, e))
  {
    match e
    case Advance(job, fate) => if job in s.jobs { AdvanceKeepsHonest(s, job, fate); }
    case Begin(job, request) => BeginKeepsHonest(s, job, request);
    case Abandon(job) =>
      hide EntriesAreStored, VersionsIdentify;
      var after := Step(s, e);
      forall other | other in after.jobs ensures CallIsHonest(after, other) { assert CallIsHonest(s, other); }
  }

  lemma {:induction false} NothingDecays(s: Stores, o: Outcome)
    ensures Decay(s, Fate({}, {}, o)) == s
  {
    assert s.cache - {} == s.cache;
    assert Decay(s, Fate({}, {}, o)).cache == s.cache;
  }

  const GOOD := Fate({}, {}, Succeeds)

  lemma {:induction false} ReaderFindsRow(s: Shared, user: string)
    requires s.jobs == map[] && user in s.stores.table && user !in s.stores.cache
    ensures Step(Step(Step(s, Begin(0, Reading(user))), Advance(0, GOOD)), Advance(0, GOOD))
            == s.(jobs := map[0 := Populate(CartOf(user, s.stores.table[user]))])
  {
    NothingDecays(s.stores, Succeeds);
    hide Decay;
    var t := Step(s, Begin(0, Reading(user)));
    assert t == s.(jobs := map[0 := ReadCache(user)]);
    assert Step(t, Advance(0, GOOD)) == s.(jobs := map[0 := ReadTable(user)]);
  }

  lemma {:induction false} DeleterFinishes(s: Shared, user: string, c: Call)
    requires s.jobs == map[0 := c] && user !in s.stores.cache
    ensures Step(Step(Step(s, Begin(1, Deleting(user))), Advance(1, GOOD)), Advance(1, GOOD))
            == s.(stores := s.stores.(table := s.stores.table - {user}))
  {
    var t := s.stores.(table := s.stores.table - {user});
    NothingDecays(s.stores, Succeeds);
    NothingDecays(t, Succeeds);
    hide Decay;
    var s1 := Step(s, Begin(1, Deleting(user)));
    assert s1 == s.(jobs := map[0 := c, 1 := DeleteRow(user)]);
    var s2 := Step(s1, Advance(1, GOOD));
    assert s2 == s.(stores := t, jobs := map[0 := c, 1 := Evict(user)]);
    assert t.cache - {user} == t.cache;
    assert map[0 := c, 1 := Evict(user)] - {1} == map[0 := c];
  }

  lemma {:induction false} PopulatingGoneRowIsStale(s: Shared, cart: Cart)
    requires s.jobs == map[0 := Populate(cart)] && cart.userName !in s.stores.table && cart.version != NIL
    ensures var after := Step(s, Advance(0, GOOD)); !Agrees(after.stores, cart.userName) && after.jobs == map[]
  {
    NothingDecays(s.stores, Succeeds);
  }

  /** A reader finds the row; a delete removes both copies and returns; the reader fills the cache. */
  function DelayedReader(user: string): seq<Event> {
    [Begin(0, Reading(user)), Advance(0, GOOD), Advance(0, GOOD)]
    + ([Begin(1, Deleting(user)), Advance(1, GOOD), Advance(1, GOOD)] + [Advance(0, GOOD)])
  }

  /** Overlapping requests can leave a stale entry with no error at all. */
  lemma {:induction false} DelayedReaderLeavesStaleEntry(s: Shared, user: string)
    requires s.jobs == map[] && user in s.stores.table && user !in s.stores.cache
    requires s.stores.table[user].version != NIL
    ensures var after := StepAll(s, DelayedReader(user)); !Agrees(after.stores, user) && after.jobs == map[]
  {
    var cart := CartOf(user, s.stores.table[user]);
    var found := s.(jobs := map[0 := Populate(cart)]);
    var gone := found.(stores := found.stores.(table := found.stores.table - {user}));
    ReaderFindsRow(s, user);
    DeleterFinishes(found, user, Populate(cart));
    PopulatingGoneRowIsStale(gone, cart);
    hide Step, Agrees;
    var first := [Begin(0, Reading(user)), Advance(0, GOOD), Advance(0, GOOD)];
    var second := [Begin(1, Deleting(user)), Advance(1, GOOD), Advance(1, GOOD)];
    StepAllThree(s, Begin(0, Reading(user)), Advance(0, GOOD), Advance(0, GOOD));
    StepAllThree(found, Begin(1, Deleting(user)), Advance(1, GOOD), Advance(1, GOOD));
    StepAllOfConcat(s, first, second + [Advance(0, GOOD)]);
    StepAllOfConcat(found, second, [Advance(0, GOOD)]);
    assert StepAll(gone, [Advance(0, GOOD)]) == Step(gone, Advance(0, GOOD));
  }

  lemma {:induction false} StepAllThree(s: Shared, a: Event, b: Event, c: Event)
    ensures StepAll(s, [a, b, c]) == Step(Step(Step(s, a), b), c)
  {
    hide Step;
    assert [a, b, c][1..] == [b, c] && [b, c][1..] == [c] && [c][1..] == [];
    assert StepAll(Step(s, a), [b, c]) == StepAll(Step(Step(s, a), b), [c]);
  }

  lemma {:induction false} StepAllOfConcat(s: Shared, a: seq<Event>, b: seq<Event>)
    ensures StepAll(s, a + b) == StepAll(StepAll(s, a), b)
    decreases |a|
  {
    hide Step;
    if a == [] {
      assert a + b == b;
    } else {
      assert (a + b)[1..] == a[1..] + b;
      StepAllOfConcat(Step(s, a[0]), a[1..], b);
    }
  }

  /** Under every interleaving, with any number of requests in progress, any of them abandoned, and
   *  entries expiring or garbled at will: each cart served for a user is one that user really stored,
   *  under the version it carries, and no other stored cart carries that version. */
  lemma {:induction false} ServedCartsWereStored(s: Shared, events: seq<Event>)
    requires Honest(s)
    ensures var after := StepAll(s, events);
            && Honest(after)
            && forall i :: 0 <= i < |after.served| ==>
                 var (user, cart) := after.served[i];
                 && cart.userName == user && cart.version != NIL && cart in after.stored
                 && forall d :: d in after.stored && d.version == cart.version ==> d == cart
    decreases |events|
  {
    if events != [] {
      StepKeepsHonest(s, events[0]);
      hide Step, Honest;
      ServedCartsWereStored(Step(s, events[0]), events[1..]);
    }
  }
}
