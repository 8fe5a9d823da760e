/** When the Redis copy of a basket agrees with the table while requests overlap.
 *
 *  Every single call is judged exactly; a user whose own requests do not overlap gets an exact account
 *  of the entry over every run; and a run of requests one after another is one of these runs.
 */
module BasketCacheAgreement {
  import opened Calls
  import opened Ids
  import opened Checkout
  import opened BasketCache
  import opened BasketCacheRuns

  predicate HoldsUsable(s: Stores, user: string) {
    user in s.cache && Usable(s.cache[user])
  }

  // One call.

  /** In every honest state, whoever else is in the middle of what: a cart written to the cache agrees
   *  exactly when the user's row is there and still has the cart's version; a row that is written or
   *  removed leaves agreement exactly when no usable entry is there; removing the entry always does. */
  lemma {:induction false} AgreesAfterCallIff(s: Shared, job: nat, fate: Fate)
    requires Honest(s) && job in s.jobs && Effective(fate.outcome)
    ensures var c := s.jobs[job];
            var user := SubjectOf(c);
            var after := Step(s, Advance(job, fate)).stores;
            match c
            case Populate(cart) =>
              Agrees(after, user) <==> user in s.stores.table && s.stores.table[user].version == cart.version
            case Refresh(cart) =>
              Agrees(after, user) <==> user in s.stores.table && s.stores.table[user].version == cart.version
            case WriteRow(_) => Agrees(after, user) <==> !HoldsUsable(after, user)
            case DeleteRow(_) => Agrees(after, user) <==> !HoldsUsable(after, user)
            case CheckoutRow(_) => Agrees(after, user) <==> !HoldsUsable(after, user)
            case Evict(_) => Agrees(after, user)
            case _ => Agrees(after, user) <==> Agrees(Decay(s.stores, fate), user)
  {
    assert CallIsHonest(s, job);
    DecayKeepsStored(s.stores, fate, s.stored);
    assert Decay(s.stores, fate).table == s.stores.table;
    hide Decay;
  }

  /** The user's row is untouched, and their entry too unless it is gone or garbled. */
  predicate Untouched(s: Stores, t: Stores, user: string) {
    && (user in t.table <==> user in s.table)
    && (user in s.table ==> t.table[user] == s.table[user])
    && (HoldsUsable(t, user) ==> HoldsUsable(s, user) && t.cache[user] == s.cache[user])
  }

  lemma {:induction false} DecayTouchesNoRow(s: Stores, f: Fate, user: string)
    ensures Decay(s, f).table == s.table && Untouched(s, Decay(s, f), user)
  {
  }

  lemma {:induction false} CallIsLocal(s: Stores, c: Call, o: Outcome, user: string)
    requires SubjectOf(c) != user
    ensures Untouched(s, Perform(s, c, o).0, user)
  {
  }

  /** Everything else leaves agreement as it was, except that an entry may be gone or garbled. */
  lemma {:induction false} AgreesAfterOthers(s: Shared, e: Event, user: string)
    requires e.Advance? && e.job in s.jobs ==> SubjectOf(s.jobs[e.job]) != user
    ensures Untouched(s.stores, Step(s, e).stores, user)
  {
    if e.Advance? && e.job in s.jobs {
      DecayTouchesNoRow(s.stores, e.fate, user);
      CallIsLocal(Decay(s.stores, e.fate), s.jobs[e.job], e.fate.outcome, user);
    }
    hide Decay, Perform, HoldsUsable;
  }

  // A user whose own requests do not overlap.

  predicate Busy(s: Shared, user: string) {
    exists job :: job in s.jobs && SubjectOf(s.jobs[job]) == user
  }

  /** No request of the user begins while another of theirs is in progress; other users' may. */
  predicate NeverOverlaps(s: Shared, events: seq<Event>, user: string)
    decreases |events|
  {
    events != [] ==>
      (events[0].Begin? && UserOf(events[0].request) == user ==> !Busy(s, user))
      && NeverOverlaps(Step(s, events[0]), events[1..], user)
  }

  predicate RowMoves(s: Stores, t: Stores, user: string) {
    (user in s.table) != (user in t.table) || (user in s.table && user in t.table && s.table[user] != t.table[user])
  }

  /** This step writes or removes the user's entry. */
  predicate EntryIsWritten(s: Shared, e: Event, user: string) {
    e.Advance? && e.job in s.jobs && SubjectOf(s.jobs[e.job]) == user && Effective(e.fate.outcome)
    && (s.jobs[e.job].Populate? || s.jobs[e.job].Refresh? || s.jobs[e.job].Evict?)
  }

  /** The user's row has moved since their entry was last written or removed. */
  function BehindAfter(s: Shared, e: Event, user: string, behind: bool): bool {
    if RowMoves(s.stores, Step(s, e).stores, user) then true
    else if EntryIsWritten(s, e, user) then false
    else behind
  }

  function Behind(s: Shared, events: seq<Event>, user: string, behind: bool): bool
    decreases |events|
  {
    if events == [] then behind
    else Behind(Step(s, events[0]), events[1..], user, BehindAfter(s, events[0], user, behind))
  }

  ghost predicate RowIsInHand(s: Shared, user: string) {
    forall job :: job in s.jobs && SubjectOf(s.jobs[job]) == user && (s.jobs[job].Populate? || s.jobs[job].Refresh?) ==>
      user in s.stores.table && CartOf(user, s.stores.table[user]) == s.jobs[job].cart
  }

  ghost predicate AtMostOne(s: Shared, user: string) {
    forall i, j :: i in s.jobs && j in s.jobs && SubjectOf(s.jobs[i]) == user && SubjectOf(s.jobs[j]) == user ==> i == j
  }

  ghost predicate Lone(s: Shared, user: string, behind: bool) {
    && AtMostOne(s, user)
    && RowIsInHand(s, user)
    && (Agrees(s.stores, user) <==> !(behind && HoldsUsable(s.stores, user)))
  }

  /** A cart the user may be about to write: unlike anything stored, or what the row holds. */
  ghost predicate CallIsCurrent(s: Shared, call: Call) {
    match call
    case WriteRow(cart) => forall d :: d in s.stored ==> d.version != cart.version
    case Populate(cart) =>
      cart.userName in s.stores.table && CartOf(cart.userName, s.stores.table[cart.userName]) == cart
    case Refresh(cart) =>
      cart.userName in s.stores.table && CartOf(cart.userName, s.stores.table[cart.userName]) == cart
    case _ => true
  }

  /** A call that may move the row leaves a usable entry disagreeing exactly when it did move it. */
  lemma {:induction false} RowCallSettles(s: Shared, d: Stores, call: Call, o: Outcome, behind: bool)
    requires EntriesAreStored(d, s.stored) && d.table == s.stores.table && CallIsCurrent(s, call)
    requires call.WriteRow? || call.DeleteRow? || call.CheckoutRow?
    requires Agrees(d, SubjectOf(call)) <==> !(behind && HoldsUsable(d, SubjectOf(call)))
    ensures var user, after := SubjectOf(call), Perform(d, call, o).0;
            Agrees(after, user) <==> !((behind || RowMoves(d, after, user)) && HoldsUsable(after, user))
  {
  }

  lemma {:induction false} EntryCallSettles(s: Shared, d: Stores, call: Call, o: Outcome, behind: bool)
    requires d.table == s.stores.table && CallIsCurrent(s, call)
    requires !(call.WriteRow? || call.DeleteRow? || call.CheckoutRow?)
    requires Agrees(d, SubjectOf(call)) <==> !(behind && HoldsUsable(d, SubjectOf(call)))
    ensures var user, after := SubjectOf(call), Perform(d, call, o).0;
            var written := Effective(o) && (call.Populate? || call.Refresh? || call.Evict?);
            && !RowMoves(d, after, user)
            && (Agrees(after, user) <==> !(behind && !written && HoldsUsable(after, user)))
  {
  }

  /** The user's own call keeps the account of the entry. */
  lemma {:induction false} OwnCallSettles(s: Shared, job: nat, fate: Fate, user: string, behind: bool)
    requires Honest(s) && Lone(s, user, behind) && job in s.jobs && SubjectOf(s.jobs[job]) == user
    ensures var e := Advance(job, fate);
            var after := Step(s, e);
            Agrees(after.stores, user) <==> !(BehindAfter(s, e, user, behind) && HoldsUsable(after.stores, user))
  {
    var call, d := s.jobs[job], Decay(s.stores, fate);
    assert CallIsHonest(s, job);
    assert CallIsCurrent(s, call);
    DecayKeepsStored(s.stores, fate, s.stored);
    DecayTouchesNoRow(s.stores, fate, user);
    var after := Perform(d, call, fate.outcome).0;
    assert RowMoves(s.stores, after, user) == RowMoves(d, after, user);
    hide Decay, Perform, EntriesAreStored, VersionsIdentify, CallIsHonest, RowMoves;
    if call.WriteRow? || call.DeleteRow? || call.CheckoutRow? {
      RowCallSettles(s, d, call, fate.outcome, behind);
    } else {
      EntryCallSettles(s, d, call, fate.outcome, behind);
    }
  }

  lemma {:induction false} OwnCallKeepsHand(s: Shared, job: nat, fate: Fate, user: string, behind: bool)
    requires Lone(s, user, behind) && job in s.jobs && SubjectOf(s.jobs[job]) == user
    ensures var after := Step(s, Advance(job, fate));
            RowIsInHand(after, user) && AtMostOne(after, user)
  {
    assert Decay(s.stores, fate).table == s.stores.table;
    hide Decay;
  }

  /** Whoever takes the step: the entry disagrees exactly when the user's row has moved since the entry
   *  was last written or removed, and a usable entry is still there. */
  lemma {:induction false} StepKeepsLone(s: Shared, e: Event, user: string, behind: bool)
    requires Honest(s) && Lone(s, user, behind)
    requires e.Begin? && UserOf(e.request) == user ==> !Busy(s, user)
    ensures Lone(Step(s, e), user, BehindAfter(s, e, user, behind))
  {
    if e.Advance? && e.job in s.jobs && SubjectOf(s.jobs[e.job]) == user {
      OwnCallSettles(s, e.job, e.fate, user, behind);
      OwnCallKeepsHand(s, e.job, e.fate, user, behind);
      hide Honest, Step, BehindAfter, Agrees, HoldsUsable, RowIsInHand;
    } else {
      AgreesAfterOthers(s, e, user);
      OthersKeepHand(s, e, user, behind);
      assert BehindAfter(s, e, user, behind) == behind;
      hide Honest, Step, BehindAfter, RowIsInHand;
    }
  }

  lemma {:induction false} OthersKeepHand(s: Shared, e: Event, user: string, behind: bool)
    requires Lone(s, user, behind)
    requires e.Begin? && UserOf(e.request) == user ==> !Busy(s, user)
    requires e.Advance? && e.job in s.jobs ==> SubjectOf(s.jobs[e.job]) != user
    ensures var after := Step(s, e);
            RowIsInHand(after, user) && AtMostOne(after, user)
  {
    AgreesAfterOthers(s, e, user);
    hide Agrees, Decay;
    var after := Step(s, e);
    if e.Advance? && e.job in s.jobs { NextSubject(s, e.job, e.fate); }
  }

  lemma {:induction false} NextSubject(s: Shared, job: nat, fate: Fate)
    requires job in s.jobs
    ensures var after := Step(s, Advance(job, fate));
            job in after.jobs ==> SubjectOf(after.jobs[job]) == SubjectOf(s.jobs[job])
  {
    hide Decay;
  }

  /** Over every interleaving in which the user's own requests do not overlap, whatever the others do and
   *  however calls fail, entries expire and requests are abandoned: the user's entry disagrees with the
   *  table if and only if the row has moved since the entry was last written or removed, and a usable
   *  entry is still there. */
  lemma {:induction false} LoneUserDisagreesIffBehind(s: Shared, events: seq<Event>, user: string)
    requires Honest(s) && !Busy(s, user) && Agrees(s.stores, user) && NeverOverlaps(s, events, user)
    ensures var after := StepAll(s, events).stores;
            !Agrees(after, user) <==> Behind(s, events, user, false) && HoldsUsable(after, user)
  {
    assert Lone(s, user, false);
    hide Honest, Busy, Agrees, HoldsUsable, NeverOverlaps;
    LoneRun(s, events, user, false);
  }

  lemma {:induction false} LoneRun(s: Shared, events: seq<Event>, user: string, behind: bool)
    requires Honest(s) && Lone(s, user, behind) && NeverOverlaps(s, events, user)
    ensures Lone(StepAll(s, events), user, Behind(s, events, user, behind))
    decreases |events|
  {
    if events != [] {
      StepKeepsHonest(s, events[0]);
      StepKeepsLone(s, events[0], user, behind);
      hide Step, Honest, Lone, Busy, BehindAfter;
      LoneRun(Step(s, events[0]), events[1..], user, BehindAfter(s, events[0], user, behind));
    }
  }

  // Any requests at all.

  /** What the step leaves the user's entry: out of date once the row moves; as good as its version once it is
   *  written; and nothing to worry about once it is removed. */
  function OutdatedAfter(s: Shared, e: Event, user: string, outdated: bool): bool {
    if RowMoves(s.stores, Step(s, e).stores, user) then true
    else if !EntryIsWritten(s, e, user) then outdated
    else
      var c := s.jobs[e.job];
      !c.Evict? && !(user in s.stores.table && s.stores.table[user].version == c.cart.version)
  }

  function Outdated(s: Shared, events: seq<Event>, user: string, outdated: bool): bool
    decreases |events|
  {
    if events == [] then outdated
    else Outdated(Step(s, events[0]), events[1..], user, OutdatedAfter(s, events[0], user, outdated))
  }

  ghost predicate Accounted(s: Stores, user: string, outdated: bool) {
    Agrees(s, user) <==> !(outdated && HoldsUsable(s, user))
  }

  lemma {:induction false} EntryCallAccounts(s: Shared, job: nat, fate: Fate, user: string, outdated: bool)
    requires Honest(s) && Accounted(s.stores, user, outdated) && job in s.jobs && SubjectOf(s.jobs[job]) == user
    requires !(s.jobs[job].WriteRow? || s.jobs[job].DeleteRow? || s.jobs[job].CheckoutRow?)
    ensures var e := Advance(job, fate); Accounted(Step(s, e).stores, user, OutdatedAfter(s, e, user, outdated))
  {
    var call, d := s.jobs[job], Decay(s.stores, fate);
    var after := Step(s, Advance(job, fate)).stores;
    DecayTouchesNoRow(s.stores, fate, user);
    assert after.table == s.stores.table by { hide Decay, HoldsUsable, Agrees; }
    if Effective(fate.outcome) { AgreesAfterCallIff(s, job, fate); }
    hide Decay, Honest;
  }

  lemma {:induction false} RowCallAccounts(s: Shared, job: nat, fate: Fate, user: string, outdated: bool)
    requires Honest(s) && Accounted(s.stores, user, outdated) && job in s.jobs && SubjectOf(s.jobs[job]) == user
    requires s.jobs[job].WriteRow? || s.jobs[job].DeleteRow? || s.jobs[job].CheckoutRow?
    ensures var e := Advance(job, fate); Accounted(Step(s, e).stores, user, OutdatedAfter(s, e, user, outdated))
  {
    var call, d := s.jobs[job], Decay(s.stores, fate);
    assert CallIsHonest(s, job);
    DecayKeepsStored(s.stores, fate, s.stored);
    DecayTouchesNoRow(s.stores, fate, user);
    var after := Perform(d, call, fate.outcome).0;
    assert RowMoves(s.stores, after, user) == RowMoves(d, after, user);
    hide Decay, Perform, EntriesAreStored, VersionsIdentify, CallIsHonest, RowMoves;
    RowCallSettles(s, d, call, fate.outcome, outdated);
  }

  lemma {:induction false} StepAccounts(s: Shared, e: Event, user: string, outdated: bool)
    requires Honest(s) && Accounted(s.stores, user, outdated)
    ensures Accounted(Step(s, e).stores, user, OutdatedAfter(s, e, user, outdated))
  {
    if e.Advance? && e.job in s.jobs && SubjectOf(s.jobs[e.job]) == user {
      hide Honest, Step, OutdatedAfter, Accounted;
      var c := s.jobs[e.job];
      if c.WriteRow? || c.DeleteRow? || c.CheckoutRow? {
        RowCallAccounts(s, e.job, e.fate, user, outdated);
      } else {
        EntryCallAccounts(s, e.job, e.fate, user, outdated);
      }
    } else {
      AgreesAfterOthers(s, e, user);
      hide Honest, Step;
    }
  }

  /** Over every interleaving whatsoever: the user's entry disagrees with the table if and only if a usable
   *  entry is there and the row moved last, or the entry was last written with a version other than the
   *  row's. */
  lemma {:induction false} DisagreesIffOutdated(s: Shared, events: seq<Event>, user: string)
    requires Honest(s) && Agrees(s.stores, user)
    ensures var after := StepAll(s, events).stores;
            !Agrees(after, user) <==> Outdated(s, events, user, false) && HoldsUsable(after, user)
  {
    hide Honest, Agrees, HoldsUsable;
    RunAccounts(s, events, user, false);
  }

  lemma {:induction false} RunAccounts(s: Shared, events: seq<Event>, user: string, outdated: bool)
    requires Honest(s) && Accounted(s.stores, user, outdated)
    ensures Accounted(StepAll(s, events).stores, user, Outdated(s, events, user, outdated))
    decreases |events|
  {
    if events != [] {
      StepKeepsHonest(s, events[0]);
      StepAccounts(s, events[0], user, outdated);
      hide Step, Honest, Accounted, OutdatedAfter;
      RunAccounts(Step(s, events[0]), events[1..], user, OutdatedAfter(s, events[0], user, outdated));
    }
  }

  // What the caller was told.

  predicate Writes(c: Call) {
    c.WriteRow? || c.Refresh? || c.DeleteRow? || c.CheckoutRow? || c.Evict?
  }

  /** Whether the user's last write that did anything ended in an error or was abandoned. Not found is an
   *  answer, not an error: it changes neither copy. */
  function DoubtfulAfter(s: Shared, e: Event, user: string, doubtful: bool): bool {
    if e.Begin? || e.job !in s.jobs || SubjectOf(s.jobs[e.job]) != user || !Writes(s.jobs[e.job]) then doubtful
    else if e.Abandon? then true
    else
      var next := Perform(Decay(s.stores, e.fate), s.jobs[e.job], e.fate.outcome).1;
      if next.Then? || next.reply.NotFound? then doubtful else !next.reply.Done?
  }

  function Doubtful(s: Shared, events: seq<Event>, user: string, doubtful: bool): bool
    decreases |events|
  {
    if events == [] then doubtful
    else Doubtful(Step(s, events[0]), events[1..], user, DoubtfulAfter(s, events[0], user, doubtful))
  }

  ghost predicate Excused(s: Shared, user: string, behind: bool, doubtful: bool) {
    behind ==>
      doubtful
      || exists job :: job in s.jobs && SubjectOf(s.jobs[job]) == user && (s.jobs[job].Refresh? || s.jobs[job].Evict?)
  }

  lemma {:induction false} OwnCallExcuses(
    s: Shared, job: nat, fate: Fate, user: string, behind: bool, doubtful: bool)
    requires AtMostOne(s, user) && Excused(s, user, behind, doubtful)
    requires job in s.jobs && SubjectOf(s.jobs[job]) == user
    ensures var e := Advance(job, fate);
            Excused(Step(s, e), user, BehindAfter(s, e, user, behind), DoubtfulAfter(s, e, user, doubtful))
  {
    assert Decay(s.stores, fate).table == s.stores.table;
    hide Decay;
    var after := Step(s, Advance(job, fate));
    NextSubject(s, job, fate);
    assert job in after.jobs && (after.jobs[job].Refresh? || after.jobs[job].Evict?) ==>
        exists j :: j in after.jobs && SubjectOf(after.jobs[j]) == user
                    && (after.jobs[j].Refresh? || after.jobs[j].Evict?);
  }

  lemma {:induction false} OthersExcuse(s: Shared, e: Event, user: string, behind: bool, doubtful: bool)
    requires AtMostOne(s, user) && Excused(s, user, behind, doubtful)
    requires e.Advance? && e.job in s.jobs ==> SubjectOf(s.jobs[e.job]) != user
    ensures Excused(Step(s, e), user, BehindAfter(s, e, user, behind), DoubtfulAfter(s, e, user, doubtful))
  {
    AgreesAfterOthers(s, e, user);
    var after := Step(s, e);
    if job :| job in s.jobs && SubjectOf(s.jobs[job]) == user && (s.jobs[job].Refresh? || s.jobs[job].Evict?) {
      assert (job in after.jobs && after.jobs[job] == s.jobs[job]) || e == Abandon(job);
    }
    hide Decay, Agrees, HoldsUsable, Perform;
  }

  /** The same runs, seen by the caller: once none of the user's requests is in progress, an entry that
   *  disagrees belongs to a user whose last write that did anything ended in an error or was abandoned. */
  lemma {:induction false} LoneUserIsStaleOnlyAfterAnError(s: Shared, events: seq<Event>, user: string)
    requires Honest(s) && !Busy(s, user) && Agrees(s.stores, user) && NeverOverlaps(s, events, user)
    ensures var after := StepAll(s, events);
            !Busy(after, user) && !Agrees(after.stores, user) ==> Doubtful(s, events, user, false)
  {
    assert Lone(s, user, false) && Excused(s, user, false, false);
    LoneUserDisagreesIffBehind(s, events, user);
    hide Honest, Agrees, HoldsUsable, NeverOverlaps, Lone;
    ExcusedRun(s, events, user, false, false);
  }

  lemma {:induction false} ExcusedRun(s: Shared, events: seq<Event>, user: string, behind: bool, doubtful: bool)
    requires Honest(s) && Lone(s, user, behind) && Excused(s, user, behind, doubtful) && NeverOverlaps(s, events, user)
    ensures Excused(StepAll(s, events), user, Behind(s, events, user, behind), Doubtful(s, events, user, doubtful))
    decreases |events|
  {
    if events != [] {
      var e := events[0];
      if e.Advance? && e.job in s.jobs && SubjectOf(s.jobs[e.job]) == user {
        OwnCallExcuses(s, e.job, e.fate, user, behind, doubtful);
      } else {
        OthersExcuse(s, e, user, behind, doubtful);
      }
      StepKeepsHonest(s, e);
      StepKeepsLone(s, e, user, behind);
      hide Step, Honest, Lone, Busy, BehindAfter, DoubtfulAfter, Excused;
      ExcusedRun(Step(s, e), events[1..], user, BehindAfter(s, e, user, behind), DoubtfulAfter(s, e, user, doubtful));
    }
  }

  // Requests of one user that overlap.

  function CrossingWrites(a: Cart, v: Uuid, b: Cart, w: Uuid): seq<Event> {
    [Begin(0, Storing(a, v)), Begin(1, Storing(b, w)), Advance(0, GOOD), Advance(1, GOOD)]
  }

  /** One store writes the row, another writes it again and then its own entry, and the first entry comes
   *  last. Nothing fails. */
  function CrossingStores(a: Cart, v: Uuid, b: Cart, w: Uuid): seq<Event> {
    CrossingWrites(a, v, b, w) + [Advance(1, GOOD), Advance(0, GOOD)]
  }

  lemma {:induction false} QuietAdvance(s: Shared, job: nat, after: Stores, next: Next)
    requires job in s.jobs && Perform(s.stores, s.jobs[job], Succeeds) == (after, next)
    requires next.Returns? ==> !next.reply.Served?
    ensures var t := Step(s, Advance(job, GOOD));
            && t == s.(stores := after,
                       jobs := if next.Then? then s.jobs[job := next.call] else s.jobs - {job},
                       stored := if s.jobs[job].WriteRow? then s.stored + {s.jobs[job].cart} else s.stored)
            && forall user, d :: DoubtfulAfter(s, Advance(job, GOOD), user, d)
                                 == if SubjectOf(s.jobs[job]) != user || !Writes(s.jobs[job]) || next.Then? then d
                                    else if next.reply.NotFound? then d else !next.reply.Done?
  {
    NothingDecays(s.stores, Succeeds);
    hide Decay, Perform;
  }

  lemma {:induction false} StepAllFrom(s: Shared, e: Event, rest: seq<Event>, user: string, d: bool)
    ensures StepAll(s, [e] + rest) == StepAll(Step(s, e), rest)
    ensures Doubtful(s, [e] + rest, user, d) == Doubtful(Step(s, e), rest, user, DoubtfulAfter(s, e, user, d))
  {
    assert ([e] + rest)[1..] == rest;
    hide Step, DoubtfulAfter;
  }

  lemma {:induction false} BothRowsWritten(s: Shared, a: Cart, v: Uuid, b: Cart, w: Uuid)
    requires s.jobs == map[] && a.userName == b.userName
    requires v != NIL && w != NIL && v != w && v !in s.versions && w !in s.versions
    ensures var events := CrossingWrites(a, v, b, w);
            var t := StepAll(s, events);
            && t.jobs == map[0 := Refresh(a.(version := v)), 1 := Refresh(b.(version := w))]
            && b.userName in t.stores.table && t.stores.table[b.userName] == Basket(b.items, w)
            && !Doubtful(s, events, a.userName, false)
  {
    var user, x, y := a.userName, a.(version := v), b.(version := w);
    var e0, e1, go0, go1 := Begin(0, Storing(a, v)), Begin(1, Storing(b, w)), Advance(0, GOOD), Advance(1, GOOD);
    var s1 := Step(s, e0);
    var s2 := Step(s1, e1);
    assert s2.stores == s.stores && s2.jobs == map[0 := WriteRow(x), 1 := WriteRow(y)];
    assert !DoubtfulAfter(s, e0, user, false) && !DoubtfulAfter(s1, e1, user, false);
    hide Step, DoubtfulAfter;
    var t3 := SetRow(s.stores, x, Succeeds);
    QuietAdvance(s2, 0, t3, Then(Refresh(x)));
    var s3 := Step(s2, go0);
    assert s3.jobs == map[0 := Refresh(x), 1 := WriteRow(y)];
    QuietAdvance(s3, 1, SetRow(t3, y, Succeeds), Then(Refresh(y)));
    assert CrossingWrites(a, v, b, w) == [e0] + ([e1] + ([go0] + ([go1] + [])));
    StepAllFrom(s3, go1, [], user, false);
    StepAllFrom(s2, go0, [go1] + [], user, false);
    StepAllFrom(s1, e1, [go0] + ([go1] + []), user, false);
    StepAllFrom(s, e0, [e1] + ([go0] + ([go1] + [])), user, false);
  }

  lemma {:induction false} EntriesCross(s: Shared, x: Cart, y: Cart)
    requires s.jobs == map[0 := Refresh(x), 1 := Refresh(y)] && x.userName == y.userName
    requires x.version != NIL && x.version != y.version
    requires y.userName in s.stores.table && s.stores.table[y.userName].version == y.version
    ensures var events := [Advance(1, GOOD), Advance(0, GOOD)];
            var t := StepAll(s, events);
            t.jobs == map[] && !Agrees(t.stores, x.userName) && !Doubtful(s, events, x.userName, false)
  {
    var user := x.userName;
    var t1 := SetEntry(s.stores, y, Succeeds);
    QuietAdvance(s, 1, t1, Returns(Done));
    var s1 := Step(s, Advance(1, GOOD));
    hide Step, DoubtfulAfter;
    assert s1.jobs == map[0 := Refresh(x)];
    var t2 := SetEntry(t1, x, Succeeds);
    QuietAdvance(s1, 0, t2, Returns(Done));
    assert !Agrees(t2, user);
    hide Agrees;
    assert [Advance(1, GOOD), Advance(0, GOOD)] == [Advance(1, GOOD)] + ([Advance(0, GOOD)] + []);
    StepAllFrom(s1, Advance(0, GOOD), [], user, false);
    StepAllFrom(s, Advance(1, GOOD), [Advance(0, GOOD)] + [], user, false);
  }

  /** Two stores of one user that overlap can both return without an error and leave the entry of the
   *  one under the row of the other. */
  lemma {:induction false} CrossingStoresDisagree(s: Shared, a: Cart, v: Uuid, b: Cart, w: Uuid)
    requires s.jobs == map[] && a.userName == b.userName
    requires v != NIL && w != NIL && v != w && v !in s.versions && w !in s.versions
    ensures var after := StepAll(s, CrossingStores(a, v, b, w));
            && after.jobs == map[] && !Agrees(after.stores, a.userName)
            && !Doubtful(s, CrossingStores(a, v, b, w), a.userName, false)
  {
    BothRowsWritten(s, a, v, b, w);
    hide CrossingWrites, Agrees, Step, StepAll, Doubtful;
    var t := StepAll(s, CrossingWrites(a, v, b, w));
    EntriesCross(t, a.(version := v), b.(version := w));
    StepAllOfConcat(s, CrossingWrites(a, v, b, w), [Advance(1, GOOD), Advance(0, GOOD)]);
    DoubtfulOfConcat(s, CrossingWrites(a, v, b, w), [Advance(1, GOOD), Advance(0, GOOD)], a.userName, false);
  }

  lemma {:induction false} DoubtfulOfConcat(s: Shared, a: seq<Event>, b: seq<Event>, user: string, d: bool)
    ensures Doubtful(s, a + b, user, d) == Doubtful(StepAll(s, a), b, user, Doubtful(s, a, user, d))
    decreases |a|
  {
    hide Step, DoubtfulAfter;
    if a == [] {
      assert a + b == b;
    } else {
      assert (a + b)[1..] == a[1..] + b;
      DoubtfulOfConcat(Step(s, a[0]), a[1..], b, user, DoubtfulAfter(s, a[0], user, d));
    }
  }

  lemma {:induction false} NeverOverlapsOfConcat(s: Shared, a: seq<Event>, b: seq<Event>, user: string)
    requires NeverOverlaps(s, a, user) && NeverOverlaps(StepAll(s, a), b, user)
    ensures NeverOverlaps(s, a + b, user)
    decreases |a|
  {
    hide Step, Busy;
    if a == [] {
      assert a + b == b;
    } else {
      assert (a + b)[1..] == a[1..] + b;
      NeverOverlapsOfConcat(Step(s, a[0]), a[1..], b, user);
    }
  }

  // One request after another is one of these runs.

  /** The steps of one request from one of its calls to its reply. */
  function Moves(s: Stores, c: Call, fates: seq<Fate>): seq<Event>
    decreases CallsLeft(c)
  {
    var fate := if fates == [] then Fate({}, {}, Fails(false, false)) else fates[0];
    var (decayed, o, left) := Waited(s, fates);
    match Perform(decayed, c, o)
    case (after, Then(next)) => [Advance(0, fate)] + Moves(after, next, left)
    case (after, Returns(_)) => [Advance(0, fate)]
  }

  lemma {:induction false} MovesFinish(s: Shared, c: Call, fates: seq<Fate>)
    requires s.jobs == map[0 := c]
    ensures var t := StepAll(s, Moves(s.stores, c, fates));
            t.stores == Finish(s.stores, c, fates).stores && t.jobs == map[] && t.versions == s.versions
    ensures forall user :: NeverOverlaps(s, Moves(s.stores, c, fates), user)
    decreases CallsLeft(c)
  {
    var fate := if fates == [] then Fate({}, {}, Fails(false, false)) else fates[0];
    var (decayed, o, left) := Waited(s.stores, fates);
    assert decayed == Decay(s.stores, fate) && o == fate.outcome by { NothingDecays(s.stores, Fails(false, false)); }
    var (after, next) := Perform(decayed, c, o);
    var t := Step(s, Advance(0, fate));
    assert t.stores == after && t.versions == s.versions
           && t.jobs == (if next.Then? then map[0 := next.call] else map[]) by { hide Decay, Perform; }
    hide Step, Decay, Perform, Waited;
    if next.Then? {
      MovesFinish(t, next.call, left);
      StepAllFrom(s, Advance(0, fate), Moves(after, next.call, left), "", false);
    } else {
      StepAllFrom(s, Advance(0, fate), [], "", false);
      assert [Advance(0, fate)] + [] == [Advance(0, fate)];
    }
  }

  function TurnEvents(s: Stores, t: Turn): seq<Event> {
    [Begin(0, t.request)] + Moves(s, First(t.request), t.fates)
  }

  /** Stores draw fresh versions. */
  predicate FreshVersions(versions: set<Uuid>, turns: seq<Turn>)
    decreases |turns|
  {
    turns != [] ==>
      var r := turns[0].request;
      (r.Storing? ==> r.version != NIL && r.version !in versions)
      && FreshVersions(if r.Storing? then versions + {r.version} else versions, turns[1..])
  }

  function RunEvents(l: Log, turns: seq<Turn>): seq<Event>
    decreases |turns|
  {
    if turns == [] then [] else TurnEvents(l.stores, turns[0]) + RunEvents(Serve(l, turns[0]), turns[1..])
  }

  lemma {:induction false} TurnIsARun(s: Shared, t: Turn)
    requires s.jobs == map[] && Admissible(s, t.request)
    ensures var u := StepAll(s, TurnEvents(s.stores, t));
            && u.stores == Run(s.stores, t).stores && u.jobs == map[]
            && u.versions == if t.request.Storing? then s.versions + {t.request.version} else s.versions
    ensures forall user :: NeverOverlaps(s, TurnEvents(s.stores, t), user)
  {
    var b := Step(s, Begin(0, t.request));
    assert b.jobs == map[0 := First(t.request)] && b.stores == s.stores;
    MovesFinish(b, First(t.request), t.fates);
    assert TurnEvents(s.stores, t)[1..] == Moves(s.stores, First(t.request), t.fates);
    hide Moves, Finish, First, Step;
    StepAllFrom(s, Begin(0, t.request), Moves(s.stores, First(t.request), t.fates), "", false);
  }

  /** The sequential runs that the other results are about are runs of the shared machine, in which no
   *  two requests overlap. */
  lemma {:induction false} SequentialRunIsARun(s: Shared, l: Log, turns: seq<Turn>)
    requires s.jobs == map[] && l.stores == s.stores && FreshVersions(s.versions, turns)
    ensures StepAll(s, RunEvents(l, turns)).stores == ServeAll(l, turns).stores
    ensures StepAll(s, RunEvents(l, turns)).jobs == map[]
    ensures forall user :: NeverOverlaps(s, RunEvents(l, turns), user)
    decreases |turns|
  {
    if turns != [] {
      TurnIsARun(s, turns[0]);
      hide TurnEvents, Step, Finish;
      var u := StepAll(s, TurnEvents(s.stores, turns[0]));
      SequentialRunIsARun(u, Serve(l, turns[0]), turns[1..]);
      var rest := RunEvents(Serve(l, turns[0]), turns[1..]);
      StepAllOfConcat(s, TurnEvents(s.stores, turns[0]), rest);
      forall user ensures NeverOverlaps(s, TurnEvents(s.stores, turns[0]) + rest, user) {
        NeverOverlapsOfConcat(s, TurnEvents(s.stores, turns[0]), rest, user);
      }
    }
  }
}
