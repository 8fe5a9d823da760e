/** The gateway's fixed-window limiter.
 *
 *  Times are whole nanoseconds. The map of callers is swept lazily, at most once a window; the
 *  limiter behaves, for each caller, exactly like one that never sweeps and serves nobody else.
 */
module RateLimit {
  import opened Calls

  type Instant = int

  const DEFAULT_LIMIT: int := 5
  const DEFAULT_WINDOW: int := 10_000_000_000

  datatype Counter = Counter(count: int, windowEnd: Instant)

  datatype Limiter = Limiter(limit: int, window: int, callers: map<string, Counter>, lastSweep: Instant)

  datatype Decision = Decision(allowed: bool, retryAfter: int)

  function Sweep(l: Limiter, now: Instant): Limiter {
    if now - l.lastSweep < l.window then l
    else l.(callers := map c | c in l.callers && now <= l.callers[c].windowEnd :: l.callers[c], lastSweep := now)
  }

  /** One caller's use of the limiter, with no map and no sweeping. */
  function Use(limit: int, window: int, current: Option<Counter>, now: Instant): (Option<Counter>, Decision) {
    if current.None? || now > current.value.windowEnd
    then (Some(Counter(1, now + window)), Decision(true, 0))
    else if current.value.count >= limit then (current, Decision(false, current.value.windowEnd - now))
    else (Some(current.value.(count := current.value.count + 1)), Decision(true, 0))
  }

  function Of(l: Limiter, caller: string): Option<Counter> {
    if caller in l.callers then Some(l.callers[caller]) else None
  }

  /** The limiter as the gateway runs it. */
  class FixedWindow {
    const limit: int
    const window: int
    var callers: map<string, Counter>
    var lastSweep: Instant

    ghost function Now(): Limiter
      reads this
    {
      Limiter(limit, window, callers, lastSweep)
    }

    constructor (limit: int, window: int, now: Instant)
      ensures this.limit > 0 && this.window > 0
      ensures this.limit == (if limit <= 0 then 5 else limit)
      ensures this.window == (if window <= 0 then 10_000_000_000 else window)
      ensures callers == map[] && lastSweep == now
    {
      this.limit := if limit <= 0 then DEFAULT_LIMIT else limit;
      this.window := if window <= 0 then DEFAULT_WINDOW else window;
      callers, lastSweep := map[], now;
    }

    /** Records one request and says whether it may proceed: the caller's own counter decides, and
     *  nobody else's changes except for counters whose window has passed, which may be dropped. */
    method Allow(caller: string, now: Instant) returns (decision: Decision)
      modifies this
      ensures var swept := Sweep(old(Now()), now);
              var (mine, d) := Use(limit, window, Of(swept, caller), now);
              && decision == d
              && Now() == swept.(callers := swept.callers[caller := mine.value])
    {
      SweepAt(now);
      if caller !in callers || now > callers[caller].windowEnd {
        callers := callers[caller := Counter(1, now + window)];
        return Decision(true, 0);
      }
      var current := callers[caller];
      if current.count >= limit {
        assert callers == callers[caller := current];
        return Decision(false, current.windowEnd - now);
      }
      callers := callers[caller := current.(count := current.count + 1)];
      decision := Decision(true, 0);
    }

    /** Drops the callers whose window has passed, at most once a window. */
    method SweepAt(now: Instant)
      modifies this
      ensures Now() == Sweep(old(Now()), now)
    {
      if now - lastSweep < window {
        return;
      }
      var left := callers.Keys;
      while left != {}
        invariant left <= old(callers.Keys)
        invariant lastSweep == old(lastSweep)
        invariant forall c :: c in callers <==>
                    c in old(callers) && (c in left || now <= old(callers)[c].windowEnd)
        invariant forall c :: c in callers ==> callers[c] == old(callers)[c]
        decreases |left|
      {
        var c :| c in left;
        left := left - {c};
        if now > callers[c].windowEnd {
          callers := callers - {c};
        }
      }
      lastSweep := now;
    }
  }

  // Runs.

  datatype Request = Request(caller: string, at: Instant)

  function Step(l: Limiter, r: Request): (Limiter, Decision) {
    var swept := Sweep(l, r.at);
    var (mine, d) := Use(l.limit, l.window, Of(swept, r.caller), r.at);
    (swept.(callers := swept.callers[r.caller := mine.value]), d)
  }

  /** The decisions a trace of requests gets, in order. */
  function Decide(l: Limiter, trace: seq<Request>): seq<Decision>
    decreases |trace|
  {
    if trace == [] then []
    else var (next, d) := Step(l, trace[0]); [d] + Decide(next, trace[1..])
  }

  function After(l: Limiter, trace: seq<Request>): Limiter
    decreases |trace|
  {
    if trace == [] then l else After(Step(l, trace[0]).0, trace[1..])
  }

  /** The decisions one caller's requests get from a limiter all of its own that never sweeps. */
  function Alone(limit: int, window: int, current: Option<Counter>, times: seq<Instant>): seq<Decision>
    decreases |times|
  {
    if times == [] then []
    else var (next, d) := Use(limit, window, current, times[0]); [d] + Alone(limit, window, next, times[1..])
  }

  predicate Chronological(trace: seq<Request>, from: Instant) {
    trace == [] || (from <= trace[0].at && Chronological(trace[1..], trace[0].at))
  }

  function TimesOf(caller: string, trace: seq<Request>): seq<Instant> {
    if trace == [] then []
    else (if trace[0].caller == caller then [trace[0].at] else []) + TimesOf(caller, trace[1..])
  }

  function DecisionsOf(caller: string, trace: seq<Request>, decisions: seq<Decision>): seq<Decision>
    requires |trace| == |decisions|
  {
    if trace == [] then []
    else (if trace[0].caller == caller then [decisions[0]] else []) + DecisionsOf(caller, trace[1..], decisions[1..])
  }

  lemma {:induction false} DecideAll(l: Limiter, trace: seq<Request>)
    ensures |Decide(l, trace)| == |trace|
    decreases |trace|
  {
    if trace != [] { DecideAll(Step(l, trace[0]).0, trace[1..]); }
  }

  /** A counter and its absence mean the same once its window has passed. */
  ghost predicate Alike(a: Option<Counter>, b: Option<Counter>, now: Instant) {
    a == b || (a.None? && b.Some? && b.value.windowEnd < now)
  }

  /** One request changes nothing that another caller can notice, and serves its own as if unswept. */
  lemma {:induction false} StepIsInvisible(l: Limiter, r: Request, caller: string, kept: Option<Counter>, now: Instant)
    requires Alike(Of(l, caller), kept, now) && now <= r.at
    ensures var (next, d) := Step(l, r);
            && next.limit == l.limit && next.window == l.window
            && (r.caller != caller ==> Alike(Of(next, caller), kept, r.at))
            && (r.caller == caller ==> (Of(next, caller), d) == Use(l.limit, l.window, kept, r.at))
  {
    assert Alike(Of(Sweep(l, r.at), caller), kept, r.at);
  }

  /** Sweeping is invisible: every caller gets the decisions, retry hints included, of a limiter that
   *  never sweeps and sees only that caller's requests. */
  lemma {:induction false} SweepingIsInvisible(
    l: Limiter, trace: seq<Request>, caller: string, kept: Option<Counter>, now: Instant)
    requires Chronological(trace, now) && Alike(Of(l, caller), kept, now)
    ensures |Decide(l, trace)| == |trace|
    ensures DecisionsOf(caller, trace, Decide(l, trace)) == Alone(l.limit, l.window, kept, TimesOf(caller, trace))
    decreases |trace|
  {
    DecideAll(l, trace);
    if trace != [] {
      hide Step, Use, Alike, Of;
      var r, rest := trace[0], trace[1..];
      var (next, d) := Step(l, r);
      StepIsInvisible(l, r, caller, kept, now);
      SweepingIsInvisible(next, rest, caller, if r.caller == caller then Of(next, caller) else kept, r.at)
        by { if r.caller == caller { AlikeItself(Of(next, caller), r.at); } }
      assert Decide(l, trace)[1..] == Decide(next, rest);
      if r.caller == caller {
        assert TimesOf(caller, trace)[1..] == TimesOf(caller, rest);
      } else {
        assert TimesOf(caller, trace) == TimesOf(caller, rest);
      }
    }
  }

  lemma {:induction false} AlikeItself(a: Option<Counter>, now: Instant)
    ensures Alike(a, a, now)
  {
  }

  // How many requests a window's length admits.

  /** Requests admitted no earlier than t and no later than one window after it. */
  function Admitted(times: seq<Instant>, decisions: seq<Decision>, t: Instant, window: int): nat
    requires |times| == |decisions|
  {
    if times == [] then 0
    else (if decisions[0].allowed && t <= times[0] <= t + window then 1 else 0)
         + Admitted(times[1..], decisions[1..], t, window)
  }

  predicate Rising(times: seq<Instant>, from: Instant) {
    times == [] || (from <= times[0] && Rising(times[1..], times[0]))
  }

  /** What is left to admit in the interval that starts at t, by where the current window ends. */
  function Room(limit: int, window: int, current: Option<Counter>, t: Instant): int {
    if current.None? || current.value.windowEnd < t then 2 * limit - 1
    else if current.value.windowEnd < t + window then 2 * limit - current.value.count
    else limit - current.value.count
  }

  lemma {:induction false} NothingAfter(times: seq<Instant>, decisions: seq<Decision>, t: Instant, window: int, now: Instant)
    requires |times| == |decisions| && Rising(times, now) && now > t + window
    ensures Admitted(times, decisions, t, window) == 0
  {
    if times != [] { NothingAfter(times[1..], decisions[1..], t, window, times[0]); }
  }

  lemma {:induction false} AloneAll(limit: int, window: int, current: Option<Counter>, times: seq<Instant>)
    ensures |Alone(limit, window, current, times)| == |times|
    decreases |times|
  {
    if times != [] { AloneAll(limit, window, Use(limit, window, current, times[0]).0, times[1..]); }
  }

  lemma {:induction false} RoomSuffices(
    limit: int, window: int, current: Option<Counter>, times: seq<Instant>, t: Instant, now: Instant)
    requires limit >= 1 && window >= 1 && Rising(times, now)
    requires current.Some? ==> 1 <= current.value.count <= limit
    ensures |Alone(limit, window, current, times)| == |times|
    ensures Admitted(times, Alone(limit, window, current, times), t, window) <= Room(limit, window, current, t)
    decreases |times|
  {
    AloneAll(limit, window, current, times);
    if times != [] {
      var x := times[0];
      var (next, d) := Use(limit, window, current, x);
      var rest := Alone(limit, window, next, times[1..]);
      RoomSuffices(limit, window, next, times[1..], t, x);
      assert Alone(limit, window, current, times)[1..] == rest;
      if x > t + window {
        NothingAfter(times[1..], rest, t, window, x);
      }
    }
  }

  lemma {:induction false} TimesRise(caller: string, trace: seq<Request>, from: Instant, low: Instant)
    requires Chronological(trace, from) && low <= from
    ensures Rising(TimesOf(caller, trace), low)
  {
    if trace != [] {
      TimesRise(caller, trace[1..], trace[0].at, if trace[0].caller == caller then trace[0].at else low);
      assert [] + TimesOf(caller, trace[1..]) == TimesOf(caller, trace[1..]);
      assert ([trace[0].at] + TimesOf(caller, trace[1..]))[1..] == TimesOf(caller, trace[1..]);
    }
  }

  lemma {:induction false} OnePerRequest(caller: string, trace: seq<Request>, decisions: seq<Decision>)
    requires |trace| == |decisions|
    ensures |TimesOf(caller, trace)| == |DecisionsOf(caller, trace, decisions)|
  {
    if trace != [] { OnePerRequest(caller, trace[1..], decisions[1..]); }
  }

  /** In any closed interval one window long, a caller gets at most 2 * limit - 1 requests through:
   *  the request that opened the earlier window is always too old. */
  lemma {:induction false} LessThanTwiceTheLimit(l: Limiter, trace: seq<Request>, caller: string, from: Instant, t: Instant)
    requires l.callers == map[] && l.limit >= 1 && l.window >= 1 && Chronological(trace, from)
    ensures |Decide(l, trace)| == |trace|
    ensures var times, decisions := TimesOf(caller, trace), DecisionsOf(caller, trace, Decide(l, trace));
            |times| == |decisions| && Admitted(times, decisions, t, l.window) <= 2 * l.limit - 1
  {
    SweepingIsInvisible(l, trace, caller, None, from);
    OnePerRequest(caller, trace, Decide(l, trace));
    TimesRise(caller, trace, from, from);
    RoomSuffices(l.limit, l.window, None, TimesOf(caller, trace), t, from);
  }

  // The bound is reached.

  function Repeat<T>(x: T, n: nat): seq<T> {
    if n == 0 then [] else [x] + Repeat(x, n - 1)
  }

  lemma {:induction false} BurstIsAdmitted(
    limit: int, window: int, count: int, end: Instant, x: Instant, n: nat, rest: seq<Instant>, t: Instant)
    requires t <= x <= end && x <= t + window && count + n <= limit
    ensures var times := Repeat(x, n) + rest;
            var all, later := Alone(limit, window, Some(Counter(count, end)), times),
                              Alone(limit, window, Some(Counter(count + n, end)), rest);
            && |all| == |times| && |later| == |rest|
            && Admitted(times, all, t, window) == n + Admitted(rest, later, t, window)
    decreases n
  {
    AloneAll(limit, window, Some(Counter(count, end)), Repeat(x, n) + rest);
    AloneAll(limit, window, Some(Counter(count + n, end)), rest);
    if n == 0 {
      assert Repeat(x, 0) + rest == rest;
    } else {
      BurstIsAdmitted(limit, window, count + 1, end, x, n - 1, rest, t);
      var times := Repeat(x, n) + rest;
      assert times[0] == x && times[1..] == Repeat(x, n - 1) + rest;
      var all := Alone(limit, window, Some(Counter(count, end)), times);
      assert all[1..] == Alone(limit, window, Some(Counter(count + 1, end)), times[1..]);
    }
  }

  /** One request opens a window; the rest of its limit comes at its last instant, a full limit right
   *  after. */
  function Burst(limit: int, window: int): seq<Instant>
    requires limit >= 1
  {
    [0] + (Repeat(window, limit - 1) + Repeat(window + 1, limit))
  }

  lemma {:induction false} BurstAloneReachesTheBound(limit: int, window: int)
    requires limit >= 1 && window >= 1
    ensures var times := Burst(limit, window);
            var all := Alone(limit, window, None, times);
            |all| == |times| && Admitted(times, all, window, window) == 2 * limit - 1
  {
    var last := Repeat(window + 1, limit - 1);
    var second := [window + 1] + last;
    assert Repeat(window + 1, limit) == second;
    var first := Repeat(window, limit - 1) + second;
    BurstIsAdmitted(limit, window, 1, window, window, limit - 1, second, window);
    FreshWindow(limit, window, None, 0, first, window);
    FreshWindow(limit, window, Some(Counter(limit, window)), window + 1, last, window);
    BurstIsAdmitted(limit, window, 1, 2 * window + 1, window + 1, limit - 1, [], window);
    assert last + [] == last;
  }

  lemma {:induction false} FreshWindow(
    limit: int, window: int, current: Option<Counter>, x: Instant, rest: seq<Instant>, t: Instant)
    requires current.Some? ==> x > current.value.windowEnd
    ensures var all, later := Alone(limit, window, current, [x] + rest), Alone(limit, window, Some(Counter(1, x + window)), rest);
            && |all| == |rest| + 1 && |later| == |rest|
            && Admitted([x] + rest, all, t, window)
               == (if t <= x <= t + window then 1 else 0) + Admitted(rest, later, t, window)
  {
    var all, later := Alone(limit, window, current, [x] + rest), Alone(limit, window, Some(Counter(1, x + window)), rest);
    AloneAll(limit, window, Some(Counter(1, x + window)), rest);
    assert ([x] + rest)[1..] == rest;
    assert all == [Decision(true, 0)] + later;
    assert all[1..] == later;
  }

  function TraceOf(caller: string, times: seq<Instant>): seq<Request> {
    if times == [] then [] else [Request(caller, times[0])] + TraceOf(caller, times[1..])
  }

  lemma {:induction false} TraceIsOfCaller(caller: string, times: seq<Instant>, decisions: seq<Decision>, from: Instant)
    requires Rising(times, from) && |decisions| == |times|
    ensures var trace := TraceOf(caller, times);
            && |trace| == |times| && Chronological(trace, from) && TimesOf(caller, trace) == times
            && DecisionsOf(caller, trace, decisions) == decisions
  {
    if times != [] {
      TraceIsOfCaller(caller, times[1..], decisions[1..], times[0]);
      assert TraceOf(caller, times)[1..] == TraceOf(caller, times[1..]);
    }
  }

  lemma {:induction false} RepeatRises(x: Instant, n: nat, rest: seq<Instant>, from: Instant)
    requires from <= x && Rising(rest, x)
    ensures Rising(Repeat(x, n) + rest, from)
  {
    if n == 0 {
      assert Repeat(x, 0) + rest == rest;
    } else {
      RepeatRises(x, n - 1, rest, x);
      assert (Repeat(x, n) + rest)[1..] == Repeat(x, n - 1) + rest;
    }
  }

  lemma {:induction false} BurstRises(limit: int, window: int)
    requires limit >= 1 && window >= 1
    ensures Rising(Burst(limit, window), 0)
  {
    RepeatRises(window + 1, limit, [], window);
    assert Repeat(window + 1, limit) + [] == Repeat(window + 1, limit);
    RepeatRises(window, limit - 1, Repeat(window + 1, limit), 0);
    assert Burst(limit, window)[1..] == Repeat(window, limit - 1) + Repeat(window + 1, limit);
  }

  /** For every limit and window, the limiter with its empty map admits 2 * limit - 1 requests of one caller
   *  within one window length: the bound cannot be lowered. */
  lemma {:induction false} TheBoundIsReached(l: Limiter, caller: string)
    requires l.callers == map[] && l.limit >= 1 && l.window >= 1
    ensures var trace := TraceOf(caller, Burst(l.limit, l.window));
            && Chronological(trace, 0)
            && |Decide(l, trace)| == |trace|
            && var times, decisions := TimesOf(caller, trace), DecisionsOf(caller, trace, Decide(l, trace));
               |times| == |decisions| && Admitted(times, decisions, l.window, l.window) == 2 * l.limit - 1
  {
    var times := Burst(l.limit, l.window);
    var trace := TraceOf(caller, times);
    BurstRises(l.limit, l.window);
    BurstAloneReachesTheBound(l.limit, l.window);
    DecideAll(l, trace);
    TraceIsOfCaller(caller, times, Alone(l.limit, l.window, None, times), 0);
    hide Burst, TraceOf, Alone, Decide, Chronological, Admitted, TimesOf, DecisionsOf;
    SweepingIsInvisible(l, trace, caller, None, 0);
  }

  // When to come back.

  /** The caller's limit is used up until a moment, or that moment has passed and the counter may be gone. */
  predicate UsedUp(l: Limiter, caller: string, end: Instant, now: Instant) {
    if caller in l.callers then l.callers[caller].windowEnd == end && l.callers[caller].count >= l.limit
    else now > end
  }

  predicate QuietAfter(trace: seq<Request>, caller: string, end: Instant) {
    forall i :: 0 <= i < |trace| && trace[i].caller == caller ==> trace[i].at <= end
  }

  lemma {:induction false} UsedUpStep(l: Limiter, r: Request, caller: string, end: Instant, now: Instant)
    requires UsedUp(l, caller, end, now) && now <= r.at && (r.caller == caller ==> r.at <= end)
    ensures UsedUp(Step(l, r).0, caller, end, r.at) && Step(l, r).0.limit == l.limit
    ensures r.caller == caller ==> Step(l, r).1 == Decision(false, end - r.at)
  {
  }

  lemma {:induction false} UsedUpRun(l: Limiter, trace: seq<Request>, caller: string, end: Instant, now: Instant)
    requires UsedUp(l, caller, end, now) && Chronological(trace, now) && QuietAfter(trace, caller, end)
    ensures UsedUp(After(l, trace), caller, end, if trace == [] then now else trace[|trace| - 1].at)
    decreases |trace|
  {
    if trace != [] {
      UsedUpStep(l, trace[0], caller, end, now);
      hide Step, UsedUp;
      UsedUpRun(Step(l, trace[0]).0, trace[1..], caller, end, trace[0].at);
    }
  }

  lemma {:induction false} LastIsLatest(trace: seq<Request>, from: Instant, q: Request)
    requires Chronological(trace + [q], from)
    ensures Chronological(trace, from) && (if trace == [] then from else trace[|trace| - 1].at) <= q.at
    ensures forall i :: 0 <= i < |trace| ==> trace[i].at <= q.at
    decreases |trace|
  {
    if trace != [] {
      assert (trace + [q])[1..] == trace[1..] + [q];
      LastIsLatest(trace[1..], trace[0].at, q);
      assert forall i :: 0 < i < |trace| ==> trace[i] == trace[1..][i - 1];
    }
  }

  /** What a refused caller is told is exact. In any state and whatever anybody does in between: until the moment
   *  the hint names, the caller is refused again, with a hint of the same moment; the caller's first request after
   *  it is admitted. */
  lemma {:induction false} RetryHintIsExact(l: Limiter, r: Request, between: seq<Request>, q: Request)
    requires !Step(l, r).1.allowed && q.caller == r.caller && Chronological(between + [q], r.at)
    ensures var moment := r.at + Step(l, r).1.retryAfter;
            var d := Step(After(Step(l, r).0, between), q).1;
            && r.at <= moment
            && (q.at <= moment ==> !d.allowed && q.at + d.retryAfter == moment)
            && (q.at > moment && QuietAfter(between, r.caller, moment) ==> d == Decision(true, 0))
  {
    var (u, d) := Step(l, r);
    var moment := r.at + d.retryAfter;
    assert UsedUp(u, r.caller, moment, r.at);
    LastIsLatest(between, r.at, q);
    if q.at <= moment || QuietAfter(between, r.caller, moment) {
      UsedUpRun(u, between, r.caller, moment, r.at);
    }
    hide After, Chronological;
  }

  const SECOND: int := 1_000_000_000

  /** The hint as the response header gives it: whole seconds, rounded to the nearest. */
  function HeaderSeconds(retryAfter: int): int {
    (retryAfter + SECOND / 2) / SECOND
  }

  /** A caller that waits just as long as the header says, and does nothing else meanwhile, is admitted if and only
   *  if the header was rounded up: otherwise it comes back within its window. */
  lemma {:induction false} HeaderSufficesIffRoundedUp(l: Limiter, r: Request, between: seq<Request>, q: Request)
    requires !Step(l, r).1.allowed && q.caller == r.caller && Chronological(between + [q], r.at)
    requires forall i :: 0 <= i < |between| ==> between[i].caller != r.caller
    requires q.at == r.at + HeaderSeconds(Step(l, r).1.retryAfter) * 1_000_000_000
    ensures Step(After(Step(l, r).0, between), q).1.allowed <==> Step(l, r).1.retryAfter % 1_000_000_000 >= 500_000_000
  {
    RetryHintIsExact(l, r, between, q);
    hide Step, After, Chronological;
  }

  // Memory.

  /** Every entry belongs to a caller that opened a window with one of the requests seen, and the
   *  sweep is never more than a window behind. */
  ghost predicate Remembers(l: Limiter, seen: seq<Request>, now: Instant) {
    && l.lastSweep <= now < l.lastSweep + l.window
    && forall c :: c in l.callers ==>
         && l.callers[c].windowEnd >= l.lastSweep
         && exists i :: 0 <= i < |seen| && seen[i] == Request(c, l.callers[c].windowEnd - l.window)
  }

  lemma {:induction false} StepRemembers(l: Limiter, seen: seq<Request>, r: Request, now: Instant)
    requires l.window >= 1 && Remembers(l, seen, now) && now <= r.at
    ensures Remembers(Step(l, r).0, seen + [r], r.at)
  {
    var next := Step(l, r).0;
    var more := seen + [r];
    forall c | c in next.callers
      ensures next.callers[c].windowEnd >= next.lastSweep
      ensures exists i :: 0 <= i < |more| && more[i] == Request(c, next.callers[c].windowEnd - l.window)
    {
      var opening := Request(c, next.callers[c].windowEnd - l.window);
      if opening == r {
        assert more[|seen|] == opening;
      } else {
        assert c in l.callers && l.callers[c].windowEnd == next.callers[c].windowEnd;
        var i :| 0 <= i < |seen| && seen[i] == opening;
        assert more[i] == opening;
      }
    }
  }

  lemma {:induction false} RunRemembers(l: Limiter, seen: seq<Request>, trace: seq<Request>, now: Instant)
    requires l.window >= 1 && Remembers(l, seen, now) && Chronological(trace, now)
    ensures Remembers(After(l, trace), seen + trace, if trace == [] then now else trace[|trace| - 1].at)
    ensures After(l, trace).window == l.window
    decreases |trace|
  {
    if trace == [] {
      assert seen + trace == seen;
    } else {
      StepRemembers(l, seen, trace[0], now);
      RunRemembers(Step(l, trace[0]).0, seen + [trace[0]], trace[1..], trace[0].at);
      assert seen + [trace[0]] + trace[1..] == seen + trace;
    }
  }

  /** After every request the map holds only callers that opened a window less than two window
   *  lengths ago. */
  lemma {:induction false} MemoryIsBounded(l: Limiter, trace: seq<Request>)
    requires l.callers == map[] && l.window >= 1 && Chronological(trace, l.lastSweep) && trace != []
    ensures var now := trace[|trace| - 1].at;
            After(l, trace).callers.Keys
            <= set i | 0 <= i < |trace| && trace[i].at > now - 2 * l.window :: trace[i].caller
  {
    RunRemembers(l, [], trace, l.lastSweep);
    assert [] + trace == trace;
  }
}
