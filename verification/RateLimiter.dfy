/** The fixed-window rate limiter (`app/middleware/rate_limit.py`): counters with an expiry
    in a shared store, one atomic script per request, and two tiers that fail in opposite
    directions. One whole-second clock; the clock read and the script are one step. */
module RateLimiter {
  import opened Wrappers
  import opened Text
  import opened RouteMatch

  const WINDOW_SECONDS := 3600
  const BASELINE_LIMIT := 600
  const STRICT_LIMIT := 30

  datatype Tier = Baseline | Strict

  function Limit(tier: Tier): nat {
    match tier case Baseline => BASELINE_LIMIT case Strict => STRICT_LIMIT
  }

  predicate FailsClosed(tier: Tier) { tier.Strict? }

  function Route(resource: string): string { "/api/v1/" + resource }

  function ActionRoute(resource: string, id: string, action: string): string {
    Route(resource) + "/{" + id + "}/" + action
  }

  /** `STRICT_ROUTES`: all of them are posts. */
  const STRICT_POST_ROUTES := [
    Route("checkins"),
    Route("venues"),
    ActionRoute("users", "user_id", "follow"),
    ActionRoute("checkins", "checkin_id", "report"),
    ActionRoute("users", "user_id", "report"),
    ActionRoute("venues", "venue_id", "report")]

  /** `_tier_for`: decided from method and path alone, before the router has run. */
  function TierFor(verb: string, path: string): Tier {
    if verb == "POST" && MatchesAny(path, STRICT_POST_ROUTES) then Strict else Baseline
  }

  // --- the store -----------------------------------------------------------------

  /** The caller, as `_scope` derives it. */
  type Scope = string

  datatype Key = Key(tier: Tier, scope: Scope, window: int)

  datatype Counter = Counter(value: int, expiry: Option<int>)

  type Store = map<Key, Counter>

  function Window(at: int): int { at / WINDOW_SECONDS }

  /** The store still answers for the key. */
  predicate Live(store: Store, key: Key, now: int) {
    key in store && (store[key].expiry.Some? ==> now < store[key].expiry.value)
  }

  /** The store forgets a counter once it has expired. */
  function Unexpired(store: Store, now: int): Store {
    map key <- store | Live(store, key, now) :: store[key]
  }

  /** `INCR`: a missing counter starts at 1, without an expiry. */
  function Increment(store: Store, key: Key): Store {
    store[key := if key in store then store[key].(value := store[key].value + 1) else Counter(1, None)]
  }

  /** The whole script. */
  function Counted(store: Store, key: Key, now: int): Store {
    var incremented := Increment(Unexpired(store, now), key);
    if incremented[key].value == 1
    then incremented[key := incremented[key].(expiry := Some(now + WINDOW_SECONDS))]
    else incremented
  }

  /** `TTL`: -1 for a counter that never expires. */
  function TimeToLive(counter: Counter, now: int): int {
    if counter.expiry.None? then -1 else counter.expiry.value - now
  }

  // --- one request ----------------------------------------------------------------

  /** The store answers, fails before running the script, or runs it and its reply is lost. */
  datatype Fault = Answers | FailsBefore | FailsAfter

  datatype Arrival = Arrival(at: int, tier: Tier, scope: Scope, fault: Fault)

  datatype Response =
    | Admitted(remaining: int, reset: int)
    | AdmittedUncounted
    | Refused(retryAfter: int)
    | Unavailable

  predicate LetThrough(r: Response) { r.Admitted? || r.AdmittedUncounted? }

  function KeyOf(a: Arrival): Key { Key(a.tier, a.scope, Window(a.at)) }

  function StoreAfter(store: Store, a: Arrival): Store {
    if a.fault.FailsBefore? then store else Counted(store, KeyOf(a), a.at)
  }

  function Max(x: int, y: int): int { if x >= y then x else y }

  function Respond(store: Store, a: Arrival): Response {
    if !a.fault.Answers? then (if FailsClosed(a.tier) then Unavailable else AdmittedUncounted)
    else
      var counter := Counted(store, KeyOf(a), a.at)[KeyOf(a)];
      var ttl := TimeToLive(counter, a.at);
      if counter.value > Limit(a.tier) then Refused(Max(ttl, 1))
      else Admitted(Max(Limit(a.tier) - counter.value, 0), Max(ttl, 0))
  }

  /** The middleware beside the store it shares with every other worker. */
  class RateLimitMiddleware {
    var store: Store

    constructor ()
      ensures store == map[]
    {
      store := map[];
    }

    /** `_INCREMENT_AND_EXPIRE` */
    method IncrementAndExpire(key: Key, now: int, seconds: int) returns (current: int, ttl: int)
      requires seconds == WINDOW_SECONDS
      modifies this
      ensures store == Counted(old(store), key, now)
      ensures current == store[key].value && ttl == TimeToLive(store[key], now)
    {
      store := Unexpired(store, now);
      if key in store {
        store := store[key := store[key].(value := store[key].value + 1)];
      } else {
        store := store[key := Counter(1, None)];
      }
      current := store[key].value;
      if current == 1 {
        store := store[key := store[key].(expiry := Some(now + seconds))];
      }
      ttl := TimeToLive(store[key], now);
    }

    /** `_on_store_failure` */
    method OnStoreFailure(tier: Tier) returns (r: Response)
      ensures r == if FailsClosed(tier) then Unavailable else AdmittedUncounted
    {
      if FailsClosed(tier) {
        return Unavailable;
      }
      return AdmittedUncounted;
    }

    method Dispatch(a: Arrival) returns (r: Response)
      modifies this
      ensures r == Respond(old(store), a)
      ensures store == StoreAfter(old(store), a)
    {
      var key := Key(a.tier, a.scope, Window(a.at));
      if a.fault.FailsBefore? {
        r := OnStoreFailure(a.tier);
        return;
      }
      var count, ttl := IncrementAndExpire(key, a.at, WINDOW_SECONDS);
      if a.fault.FailsAfter? {
        r := OnStoreFailure(a.tier);
        return;
      }
      if count > Limit(a.tier) {
        return Refused(Max(ttl, 1));
      }
      return Admitted(Max(Limit(a.tier) - count, 0), Max(ttl, 0));
    }
  }

  // --- whole runs ------------------------------------------------------------------

  /** Arrivals in the order of a clock that never runs backwards. */
  ghost predicate InOrder(run: seq<Arrival>) {
    forall i, j | 0 <= i < j < |run| :: run[i].at <= run[j].at
  }

  function StoreAt(run: seq<Arrival>): Store {
    if run == [] then map[] else StoreAfter(StoreAt(run[..|run| - 1]), run[|run| - 1])
  }

  /** What the last arrival of a run was told. */
  function LastResponse(run: seq<Arrival>): Response
    requires run != []
  {
    Respond(StoreAt(run[..|run| - 1]), run[|run| - 1])
  }

  function Tally(yes: bool): nat { if yes then 1 else 0 }

  /** Arrivals whose script ran against this counter. */
  function Reached(run: seq<Arrival>, key: Key): nat {
    if run == [] then 0
    else
      var a := run[|run| - 1];
      Reached(run[..|run| - 1], key) + Tally(KeyOf(a) == key && !a.fault.FailsBefore?)
  }

  function Requests(run: seq<Arrival>, key: Key): nat {
    if run == [] then 0 else Requests(run[..|run| - 1], key) + Tally(KeyOf(run[|run| - 1]) == key)
  }

  function Faults(run: seq<Arrival>, key: Key): nat {
    if run == [] then 0
    else Faults(run[..|run| - 1], key) + Tally(KeyOf(run[|run| - 1]) == key && !run[|run| - 1].fault.Answers?)
  }

  function Admissions(run: seq<Arrival>, key: Key): nat {
    if run == [] then 0
    else Admissions(run[..|run| - 1], key) + Tally(KeyOf(run[|run| - 1]) == key && LetThrough(LastResponse(run)))
  }

  /** A counter's value is the number of increments its window has seen, and its expiry,
      always set, falls past the end of that window by less than another. */
  predicate Faithful(store: Store, key: Key, reached: nat)
    requires key in store
  {
    && store[key].value == reached > 0 && store[key].expiry.Some?
    && (key.window + 1) * WINDOW_SECONDS <= store[key].expiry.value < (key.window + 2) * WINDOW_SECONDS
  }

  lemma WindowBounds(at: int)
    ensures Window(at) * WINDOW_SECONDS <= at < (Window(at) + 1) * WINDOW_SECONDS
  {
  }

  lemma WindowsAreOrdered(s: int, t: int)
    requires s <= t
    ensures Window(s) <= Window(t)
  {
  }

  /** Up to the end of its window a counter is never forgotten, nor any of its increments. */
  lemma {:induction false} CountersAreFaithful(run: seq<Arrival>, key: Key)
    requires InOrder(run)
    ensures key in StoreAt(run) ==> Faithful(StoreAt(run), key, Reached(run, key))
    ensures key !in StoreAt(run) && Reached(run, key) > 0 ==> run[|run| - 1].at >= (key.window + 1) * WINDOW_SECONDS
  {
    if run != [] {
      CountersAreFaithful(run[..|run| - 1], key);
      WindowBounds(run[|run| - 1].at);
    }
  }

  /** What the script finds under its key. */
  lemma CounterBefore(run: seq<Arrival>)
    requires run != [] && InOrder(run)
    ensures var a := run[|run| - 1];
            var key, front := KeyOf(a), run[..|run| - 1];
            var store := Unexpired(StoreAt(front), a.at);
            if Reached(front, key) == 0 then key !in store else key in store && Faithful(store, key, Reached(front, key))
  {
    CountersAreFaithful(run[..|run| - 1], KeyOf(run[|run| - 1]));
    WindowBounds(run[|run| - 1].at);
  }

  /** Every counter in every reachable store has an expiry: nobody is locked out for good. */
  lemma EveryCounterExpires(run: seq<Arrival>, key: Key)
    requires InOrder(run) && key in StoreAt(run)
    ensures StoreAt(run)[key].expiry.Some?
    ensures Live(StoreAt(run), key, StoreAt(run)[key].expiry.value - 1)
            && !Live(StoreAt(run), key, StoreAt(run)[key].expiry.value)
  {
  }

  /** Only the windows seen so far have counters. */
  lemma {:induction false} CountersAreFromThePast(run: seq<Arrival>, key: Key, now: int)
    requires key in StoreAt(run) && forall a <- run :: a.at <= now
    ensures key.window <= Window(now)
  {
    var last, front := run[|run| - 1], run[..|run| - 1];
    if key in StoreAt(front) {
      assert forall a <- front :: a in run;
      CountersAreFromThePast(front, key, now);
    } else {
      WindowsAreOrdered(last.at, now);
    }
  }

  /** At any moment a caller has at most two live counters per tier: the current window's
      and the one before it. */
  lemma AtMostTwoLiveCounters(run: seq<Arrival>, now: int, tier: Tier, scope: Scope)
    requires InOrder(run) && forall a <- run :: a.at <= now
    ensures (set key <- StoreAt(run) | key.tier == tier && key.scope == scope && Live(StoreAt(run), key, now))
            <= {Key(tier, scope, Window(now) - 1), Key(tier, scope, Window(now))}
  {
  }

  /** Admissions in one window of one caller, to the number: what the counter let through,
      plus, on a tier that fails open, every arrival that met a fault. */
  lemma {:induction false} AdmissionsAreCapped(run: seq<Arrival>, key: Key)
    requires InOrder(run)
    ensures var open := if FailsClosed(key.tier) then 0 else Faults(run, key);
            Admissions(run, key) <= (if Reached(run, key) <= Limit(key.tier) then Reached(run, key) else Limit(key.tier)) + open
    ensures Faults(run, key) == 0 ==>
              Reached(run, key) == Requests(run, key)
              && Admissions(run, key) == if Requests(run, key) <= Limit(key.tier) then Requests(run, key) else Limit(key.tier)
  {
    if run != [] {
      var front, a := run[..|run| - 1], run[|run| - 1];
      AdmissionsAreCapped(front, key);
      CounterBefore(run);
    }
  }

  /** Without faults a window admits exactly its first `limit` requests' worth, however its
      counter's expiry falls. */
  lemma WindowAdmitsExactly(run: seq<Arrival>, key: Key)
    requires InOrder(run) && Faults(run, key) == 0
    ensures Admissions(run, key) == if Requests(run, key) <= Limit(key.tier) then Requests(run, key) else Limit(key.tier)
  {
    AdmissionsAreCapped(run, key);
  }

  /** The strict tier holds its limit whatever the store does, before or after incrementing. */
  lemma StrictHoldsUnderFaults(run: seq<Arrival>, scope: Scope, window: int)
    requires InOrder(run)
    ensures Admissions(run, Key(Strict, scope, window)) <= STRICT_LIMIT
  {
    AdmissionsAreCapped(run, Key(Strict, scope, window));
  }

  /** On the baseline tier only faults let more through. */
  lemma BaselineExceedsOnlyByFaults(run: seq<Arrival>, scope: Scope, window: int)
    requires InOrder(run)
    ensures var key := Key(Baseline, scope, window);
            Admissions(run, key) <= BASELINE_LIMIT + Faults(run, key)
  {
    AdmissionsAreCapped(run, Key(Baseline, scope, window));
  }

  /** On a fault the tiers part: the baseline tier serves, the strict tier does not. */
  lemma FaultsFailApart(run: seq<Arrival>)
    requires run != [] && !run[|run| - 1].fault.Answers?
    ensures LetThrough(LastResponse(run)) <==> run[|run| - 1].tier.Baseline?
    ensures LastResponse(run) == if run[|run| - 1].tier.Strict? then Unavailable else AdmittedUncounted
  {
  }

  /** To the number: a baseline window admits what the store let through and every request
      that met a fault; a strict window what the store let through alone. */
  lemma {:induction false} AdmissionsAreCountedOrFaults(run: seq<Arrival>, key: Key)
    ensures Admissions(run, key)
            == CountedAdmissions(run, key) + (match key.tier case Baseline => Faults(run, key) case Strict => 0)
  {
    if run != [] { AdmissionsAreCountedOrFaults(run[..|run| - 1], key); }
  }

  // --- any interval -----------------------------------------------------------------

  predicate Within(a: Arrival, tier: Tier, scope: Scope, start: int) {
    a.tier == tier && a.scope == scope && start <= a.at <= start + WINDOW_SECONDS
  }

  function AdmissionsWithin(run: seq<Arrival>, tier: Tier, scope: Scope, start: int): nat {
    if run == [] then 0
    else
      AdmissionsWithin(run[..|run| - 1], tier, scope, start)
      + Tally(Within(run[|run| - 1], tier, scope, start) && LetThrough(LastResponse(run)))
  }

  /** Arrivals of this caller in this interval that met a fault. */
  function FaultsWithin(run: seq<Arrival>, tier: Tier, scope: Scope, start: int): nat {
    if run == [] then 0
    else
      FaultsWithin(run[..|run| - 1], tier, scope, start)
      + Tally(Within(run[|run| - 1], tier, scope, start) && !run[|run| - 1].fault.Answers?)
  }

  /** Admissions the store itself let through. */
  function CountedAdmissions(run: seq<Arrival>, key: Key): nat {
    if run == [] then 0
    else CountedAdmissions(run[..|run| - 1], key) + Tally(KeyOf(run[|run| - 1]) == key && LastResponse(run).Admitted?)
  }

  /** The store never lets through more than the limit, whatever faults come in between. */
  lemma {:induction false} CountedAdmissionsAreCapped(run: seq<Arrival>, key: Key)
    requires InOrder(run)
    ensures CountedAdmissions(run, key)
            <= if Reached(run, key) <= Limit(key.tier) then Reached(run, key) else Limit(key.tier)
  {
    if run != [] {
      CountedAdmissionsAreCapped(run[..|run| - 1], key);
      CounterBefore(run);
    }
  }

  /** An interval of one window's length meets two windows; past their counted admissions it
      only holds those a fault let through. */
  lemma {:induction false} IntervalMeetsTwoWindows(run: seq<Arrival>, tier: Tier, scope: Scope, start: int)
    ensures AdmissionsWithin(run, tier, scope, start)
            <= CountedAdmissions(run, Key(tier, scope, Window(start)))
               + CountedAdmissions(run, Key(tier, scope, Window(start) + 1))
               + (if FailsClosed(tier) then 0 else FaultsWithin(run, tier, scope, start))
  {
    if run != [] {
      IntervalMeetsTwoWindows(run[..|run| - 1], tier, scope, start);
      WindowBounds(start);
      WindowBounds(run[|run| - 1].at);
    }
  }

  /** However an hour is placed across two windows, it admits at most twice the limit, and on
      a tier that fails open one more for each fault this caller met within it. */
  lemma AnyHourAdmitsTwiceTheLimit(run: seq<Arrival>, tier: Tier, scope: Scope, start: int)
    requires InOrder(run)
    ensures AdmissionsWithin(run, tier, scope, start)
            <= 2 * Limit(tier) + (if FailsClosed(tier) then 0 else FaultsWithin(run, tier, scope, start))
  {
    IntervalMeetsTwoWindows(run, tier, scope, start);
    CountedAdmissionsAreCapped(run, Key(tier, scope, Window(start)));
    CountedAdmissionsAreCapped(run, Key(tier, scope, Window(start) + 1));
  }

  // --- what the caller is told --------------------------------------------------------

  lemma {:induction false} ExpiriesAreNear(run: seq<Arrival>, key: Key)
    requires InOrder(run) && key in StoreAt(run)
    ensures StoreAt(run)[key].expiry.Some? && StoreAt(run)[key].expiry.value <= run[|run| - 1].at + WINDOW_SECONDS
  {
    CountersAreFaithful(run, key);
    var front := run[..|run| - 1];
    if key in StoreAt(front) { ExpiriesAreNear(front, key); }
  }

  /** A refused caller who waits as long as told lands in a later window, and is never told
      to wait longer than the expiry a counter starts with. */
  lemma RetryAfterReachesANewWindow(run: seq<Arrival>)
    requires run != [] && InOrder(run) && LastResponse(run).Refused?
    ensures var a, wait := run[|run| - 1], LastResponse(run).retryAfter;
            && Window(a.at + wait) > Window(a.at)
            && 1 <= wait <= WINDOW_SECONDS
  {
    var a := run[|run| - 1];
    CounterBefore(run);
    ExpiriesAreNear(run, KeyOf(a));
    WindowBounds(a.at);
    WindowBounds(a.at + LastResponse(run).retryAfter);
  }

  /** A counted answer tells the truth about the quota: it is what the limit leaves after
      every request the counter has seen. */
  lemma RemainingIsTrue(run: seq<Arrival>)
    requires run != [] && InOrder(run) && LastResponse(run).Admitted?
    ensures LastResponse(run).remaining == Limit(run[|run| - 1].tier) - Reached(run, KeyOf(run[|run| - 1])) >= 0
  {
    CounterBefore(run);
  }

  /** When the store answers, a caller is refused exactly once the window's counter has
      passed the limit. */
  lemma RefusalIsExact(run: seq<Arrival>)
    requires run != [] && InOrder(run) && run[|run| - 1].fault.Answers?
    ensures var a := run[|run| - 1];
            && (LastResponse(run).Refused? <==> Reached(run, KeyOf(a)) > Limit(a.tier))
            && (LastResponse(run).Admitted? <==> Reached(run, KeyOf(a)) <= Limit(a.tier))
  {
    CounterBefore(run);
  }

  /** The wait is no longer than it need be: the counter that refused the caller answers up to
      the second before, and is gone at the one named. The same holds of the reset time an
      admitted caller is told. */
  lemma RetryAfterIsExact(run: seq<Arrival>)
    requires run != [] && InOrder(run) && (LastResponse(run).Refused? || LastResponse(run).Admitted?)
    ensures var a := run[|run| - 1];
            var wait := if LastResponse(run).Refused? then LastResponse(run).retryAfter else LastResponse(run).reset;
            && Live(StoreAt(run), KeyOf(a), a.at + wait - 1)
            && !Live(StoreAt(run), KeyOf(a), a.at + wait)
  {
    CounterBefore(run);
    WindowBounds(run[|run| - 1].at);
  }

  /** In figures: 30 requests an hour on strict routes whatever the store does, 600 on the
      others while it answers; at most 60 and 1200 in any stretch of an hour. */
  lemma HourlyFigures(run: seq<Arrival>, scope: Scope, window: int, start: int)
    requires InOrder(run)
    ensures Admissions(run, Key(Strict, scope, window)) <= 30
    ensures Faults(run, Key(Baseline, scope, window)) == 0 ==> Admissions(run, Key(Baseline, scope, window)) <= 600
    ensures AdmissionsWithin(run, Strict, scope, start) <= 60
    ensures FaultsWithin(run, Baseline, scope, start) == 0 ==> AdmissionsWithin(run, Baseline, scope, start) <= 1200
    ensures forall a <- run :: KeyOf(a).window * 3600 <= a.at < (KeyOf(a).window + 1) * 3600
  {
    StrictHoldsUnderFaults(run, scope, window);
    BaselineExceedsOnlyByFaults(run, scope, window);
    AnyHourAdmitsTwiceTheLimit(run, Strict, scope, start);
    AnyHourAdmitsTwiceTheLimit(run, Baseline, scope, start);
    forall a <- run ensures KeyOf(a).window * 3600 <= a.at < (KeyOf(a).window + 1) * 3600 { WindowBounds(a.at); }
  }

  // --- tiers ------------------------------------------------------------------------------

  lemma RouteIsSimple(a: string)
    requires Simple(a)
    ensures Simple(Route(a))
  {
    PlainIsSimple("api");
    PlainIsSimple("v1");
    ThreeAreSimple("api", "v1", a);
    assert "/" + "api" + "/" + "v1" + "/" + a == Route(a);
  }

  lemma ActionRouteIsSimple(a: string, name: string, b: string)
    requires Simple(a) && Simple(b) && name != "" && '/' !in name && '}' !in name
    ensures Simple(ActionRoute(a, name, b))
  {
    BracedIsSimple(name);
    RouteIsSimple(a);
    JoinedIsSimple(Route(a), "{" + name + "}");
    JoinedIsSimple(Route(a) + "/" + ("{" + name + "}"), b);
    assert Route(a) + "/" + ("{" + name + "}") + "/" + b == ActionRoute(a, name, b);
  }

  lemma StrictRoutesAreSimple(t: string)
    requires t in STRICT_POST_ROUTES
    ensures Simple(t)
  {
    hide Simple;
    PlainIsSimple("checkins");
    PlainIsSimple("venues");
    PlainIsSimple("users");
    PlainIsSimple("follow");
    PlainIsSimple("report");
    RouteIsSimple("checkins");
    RouteIsSimple("venues");
    ActionRouteIsSimple("users", "user_id", "follow");
    ActionRouteIsSimple("checkins", "checkin_id", "report");
    ActionRouteIsSimple("users", "user_id", "report");
    ActionRouteIsSimple("venues", "venue_id", "report");
  }

  /** A path is strict exactly when it is posted to and agrees, up to one trailing slash and a
      final newline, with one of the declared routes segment by segment. */
  lemma StrictExactly(verb: string, path: string)
    ensures TierFor(verb, path).Strict? <==>
            verb == "POST" && exists t <- STRICT_POST_ROUTES :: AgreesToTheEnd(t, path)
  {
    forall t <- STRICT_POST_ROUTES ensures PatternMatch(CompileTemplate(t), path) <==> AgreesToTheEnd(t, path) {
      StrictRoutesAreSimple(t);
      PatternMatchIsAgreement(t, path);
    }
  }

  // --- the strict routes, spelled out ------------------------------------------------------

  /** The six paths, by their segments. */
  predicate StrictSegments(s: seq<string>) {
    || s == ["", "api", "v1", "checkins"]
    || s == ["", "api", "v1", "venues"]
    || (|s| == 6 && s[..4] == ["", "api", "v1", "users"] && s[4] != "" && (s[5] == "follow" || s[5] == "report"))
    || (|s| == 6 && s[..4] == ["", "api", "v1", "checkins"] && s[4] != "" && s[5] == "report")
    || (|s| == 6 && s[..4] == ["", "api", "v1", "venues"] && s[4] != "" && s[5] == "report")
  }

  lemma RouteSegments(a: string)
    requires '/' !in a
    ensures Split(Route(a), '/') == ["", "api", "v1", a]
  {
    SplitWithout("", '/');
    SplitWithout("api", '/');
    SplitWithout("v1", '/');
    SplitWithout(a, '/');
    SplitOfConcat("", '/', "api" + ['/'] + ("v1" + ['/'] + a));
    SplitOfConcat("api", '/', "v1" + ['/'] + a);
    SplitOfConcat("v1", '/', a);
    assert Route(a) == "" + ['/'] + ("api" + ['/'] + ("v1" + ['/'] + a));
  }

  lemma ActionSegments(a: string, name: string, b: string)
    requires '/' !in a && '/' !in name && '/' !in b
    ensures Split(ActionRoute(a, name, b), '/') == ["", "api", "v1", a, "{" + name + "}", b]
  {
    RouteSegments(a);
    SplitWithout("{" + name + "}", '/');
    SplitWithout(b, '/');
    SplitOfConcat(Route(a), '/', ("{" + name + "}") + ['/'] + b);
    SplitOfConcat("{" + name + "}", '/', b);
    assert ActionRoute(a, name, b) == Route(a) + ['/'] + (("{" + name + "}") + ['/'] + b);
  }

  /** A fixed route agrees with its own path alone. */
  lemma RouteAgreement(a: string, path: string)
    requires '/' !in a && '{' !in a
    ensures PathAgrees(Route(a), path) <==> Split(path, '/') == ["", "api", "v1", a]
  {
    RouteSegments(a);
    FixedAgreement(["", "api", "v1", a], Split(path, '/'));
  }

  lemma FixedAgreement(ts: seq<string>, ss: seq<string>)
    requires forall t <- ts :: '{' !in t
    ensures (|ts| == |ss| && forall i | 0 <= i < |ts| :: Agrees(ts[i], ss[i])) <==> ss == ts
  {
    forall i | 0 <= i < |ts| ensures !IsParameter(ts[i]) { assert ts[i] in ts; }
  }

  /** An action route agrees with every path that names something in its parameter's place. */
  lemma ActionAgreement(a: string, name: string, b: string, path: string)
    requires '/' !in a && '{' !in a && '/' !in b && '{' !in b && name != "" && '/' !in name && '}' !in name
    ensures var s := Split(path, '/');
            PathAgrees(ActionRoute(a, name, b), path) <==>
            |s| == 6 && s[..4] == ["", "api", "v1", a] && s[4] != "" && s[5] == b
  {
    ActionSegments(a, name, b);
    BracedIsParameter(name);
    var ts, s := ["", "api", "v1", a, "{" + name + "}", b], Split(path, '/');
    if |s| == 6 {
      forall i | 0 <= i < 6 && i != 4 ensures Agrees(ts[i], s[i]) <==> s[i] == ts[i] {}
      assert s[..4] == [s[0], s[1], s[2], s[3]];
    }
  }

  predicate StrictPath(path: string) {
    || StrictSegments(Split(path, '/'))
    || (path != "" && path[|path| - 1] == '/' && StrictSegments(Split(path[..|path| - 1], '/')))
  }

  lemma RoutesAreTheSixPaths(path: string)
    ensures (exists t <- STRICT_POST_ROUTES :: PathAgrees(t, path)) <==> StrictSegments(Split(path, '/'))
  {
    hide PathAgrees, Split, Route, ActionRoute;
    RouteAgreement("checkins", path);
    RouteAgreement("venues", path);
    ActionAgreement("users", "user_id", "follow", path);
    ActionAgreement("checkins", "checkin_id", "report", path);
    ActionAgreement("users", "user_id", "report", path);
    ActionAgreement("venues", "venue_id", "report", path);
    AnyStrictRoute(path);
  }

  lemma AnyStrictRoute(path: string)
    ensures (exists t <- STRICT_POST_ROUTES :: PathAgrees(t, path)) <==>
            || PathAgrees(Route("checkins"), path) || PathAgrees(Route("venues"), path)
            || PathAgrees(ActionRoute("users", "user_id", "follow"), path)
            || PathAgrees(ActionRoute("checkins", "checkin_id", "report"), path)
            || PathAgrees(ActionRoute("users", "user_id", "report"), path)
            || PathAgrees(ActionRoute("venues", "venue_id", "report"), path)
  {
    hide PathAgrees, Route, ActionRoute;
    var r := STRICT_POST_ROUTES;
    assert r[0] in r && r[1] in r && r[2] in r && r[3] in r && r[4] in r && r[5] in r;
  }

  lemma RoutesUpToSlash(path: string)
    ensures (exists t <- STRICT_POST_ROUTES :: AgreesUpToSlash(t, path)) <==> StrictPath(path)
  {
    RoutesAreTheSixPaths(path);
    if path != "" { RoutesAreTheSixPaths(path[..|path| - 1]); }
    hide PathAgrees, StrictSegments;
  }

  /** The strict tier, spelled out: posting a check-in or a venue, following an account, and
      reporting a check-in, an account or a venue; one trailing slash more or less, and with or
      without a newline at the very end. */
  lemma StrictMeansTheseSixPaths(verb: string, path: string)
    ensures TierFor(verb, path).Strict? <==>
            && verb == "POST"
            && (StrictPath(path) || (path != "" && path[|path| - 1] == '\n' && StrictPath(path[..|path| - 1])))
  {
    StrictExactly(verb, path);
    RoutesUpToSlash(path);
    if path != "" { RoutesUpToSlash(path[..|path| - 1]); }
    hide AgreesUpToSlash, StrictPath, TierFor;
  }

  /** A trailing slash does not dodge the strict tier. */
  lemma StrictSurvivesTrailingSlash(path: string)
    requires TierFor("POST", path).Strict? && (path == "" || (path[|path| - 1] != '/' && path[|path| - 1] != '\n'))
    ensures TierFor("POST", path + "/").Strict?
  {
    var t :| t in STRICT_POST_ROUTES && PatternMatch(CompileTemplate(t), path);
    assert Matches(CompileTemplate(t), path);
    assert (path + "/")[..|path + "/"| - 1] == path;
    assert PatternMatch(CompileTemplate(t), path + "/");
  }
}
