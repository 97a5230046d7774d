/** The per-IP rate limiter of the server: fixed windows opened by the first request
    after the last one ran out, with stale counters swept away now and then. */
module RateLimiter {
  import opened Wrappers

  datatype IpCounter = IpCounter(n: nat, seen: int)

  type Table = map<string, IpCounter>

  const GC_THRESHOLD: nat := 10000
  const GC_PERIOD: int := 30_000_000_000

  predicate Stale(c: IpCounter, now: int, window: int) {
    now - c.seen > window
  }

  // ----- specification

  function Sweep(ips: Table, now: int, window: int): Table {
    map ip | ip in ips && !Stale(ips[ip], now, window) :: ips[ip]
  }

  /** Counting one request, with its decision. */
  function Count(c: Option<IpCounter>, now: int, limit: int, window: int): (IpCounter, bool) {
    if c.None? || Stale(c.value, now, window) then (IpCounter(1, now), true)
    else (IpCounter(c.value.n + 1, c.value.seen), c.value.n + 1 <= limit)
  }

  function Get(ips: Table, ip: string): Option<IpCounter> {
    if ip in ips then Some(ips[ip]) else None
  }

  /** Allow without garbage collection. */
  function AllowPlain(ips: Table, ip: string, now: int, limit: int, window: int): (Table, bool) {
    var (c, ok) := Count(Get(ips, ip), now, limit, window);
    (ips[ip := c], ok)
  }

  datatype State = State(ips: Table, lastGC: int)

  function Collect(s: State, now: int, window: int): State {
    if |s.ips| > GC_THRESHOLD && now - s.lastGC > GC_PERIOD then State(Sweep(s.ips, now, window), now) else s
  }

  /** Allow, garbage collection included. */
  function AllowCollecting(s: State, ip: string, now: int, limit: int, window: int): (State, bool) {
    var t := Collect(s, now, window);
    var (ips, ok) := AllowPlain(t.ips, ip, now, limit, window);
    (State(ips, t.lastGC), ok)
  }

  class IpRateLimiter {
    var ips: map<string, IpCounter>
    const limit: int
    const window: int
    var lastGC: int

    constructor (limit: int, window: int, now: int)
      ensures View() == State(map[], now) && this.limit == limit && this.window == window
    {
      this.limit, this.window := limit, window;
      ips, lastGC := map[], now;
    }

    function View(): State
      reads this
    {
      State(ips, lastGC)
    }

    method Allow(ip: string, now: int) returns (ok: bool)
      modifies this
      ensures (View(), ok) == AllowCollecting(old(View()), ip, now, limit, window)
    {
      if |ips| > GC_THRESHOLD && now - lastGC > GC_PERIOD {
        DeleteStale(now);
        lastGC := now;
      }
      if ip !in ips || now - ips[ip].seen > window {
        ips := ips[ip := IpCounter(1, now)];
        return true;
      }
      var c := ips[ip].(n := ips[ip].n + 1);
      ips := ips[ip := c];
      ok := c.n <= limit;
    }

    /** The deleting loop, in whatever order the map is visited. */
    method DeleteStale(now: int)
      modifies this`ips
      ensures ips == Sweep(old(ips), now, window)
    {
      var todo := ips.Keys;
      while todo != {}
        invariant todo <= ips.Keys <= old(ips).Keys
        invariant forall ip :: ip in ips ==> ips[ip] == old(ips)[ip]
        invariant forall ip :: ip in old(ips) && ip !in todo ==> (ip in ips <==> !Stale(old(ips)[ip], now, window))
        decreases |todo|
      {
        var ip :| ip in todo;
        if now - ips[ip].seen > window {
          ips := ips - {ip};
        }
        todo := todo - {ip};
      }
    }
  }

  // ----- request traces

  datatype Request = Request(ip: string, now: int)

  predicate Ordered(trace: seq<Request>, start: int) {
    trace == [] || (start <= trace[0].now && Ordered(trace[1..], trace[0].now))
  }

  function Decisions(s: State, trace: seq<Request>, limit: int, window: int): seq<bool>
    decreases trace
  {
    if trace == [] then []
    else
      var (t, ok) := AllowCollecting(s, trace[0].ip, trace[0].now, limit, window);
      [ok] + Decisions(t, trace[1..], limit, window)
  }

  function PlainDecisions(ips: Table, trace: seq<Request>, limit: int, window: int): seq<bool>
    decreases trace
  {
    if trace == [] then []
    else
      var (t, ok) := AllowPlain(ips, trace[0].ip, trace[0].now, limit, window);
      [ok] + PlainDecisions(t, trace[1..], limit, window)
  }

  /** What one client sees: only its own request times matter. */
  function OwnDecisions(c: Option<IpCounter>, times: seq<int>, limit: int, window: int): seq<bool>
    decreases times
  {
    if times == [] then []
    else
      var (d, ok) := Count(c, times[0], limit, window);
      [ok] + OwnDecisions(Some(d), times[1..], limit, window)
  }

  function TimesOf(trace: seq<Request>, ip: string): seq<int> {
    if trace == [] then []
    else (if trace[0].ip == ip then [trace[0].now] else []) + TimesOf(trace[1..], ip)
  }

  /** The decisions that went to one IP. */
  function DecisionsOf(trace: seq<Request>, decisions: seq<bool>, ip: string): seq<bool>
    requires |decisions| == |trace|
  {
    if trace == [] then []
    else (if trace[0].ip == ip then [decisions[0]] else []) + DecisionsOf(trace[1..], decisions[1..], ip)
  }

  // ----- garbage collection changes nothing

  /** The collected table lacks only counters that are stale by now. */
  ghost predicate Agrees(collected: Table, plain: Table, now: int, window: int) {
    && (forall ip :: ip in collected ==> ip in plain && plain[ip] == collected[ip])
    && (forall ip :: ip in plain && ip !in collected ==> Stale(plain[ip], now, window))
  }

  lemma CollectAgrees(s: State, plain: Table, before: int, now: int, window: int)
    requires Agrees(s.ips, plain, before, window) && before <= now
    ensures Agrees(Collect(s, now, window).ips, plain, now, window)
  {}

  lemma {:induction false} GcIsTransparent(s: State, plain: Table, trace: seq<Request>, start: int,
                                           limit: int, window: int)
    requires Agrees(s.ips, plain, start, window) && Ordered(trace, start)
    ensures Decisions(s, trace, limit, window) == PlainDecisions(plain, trace, limit, window)
    decreases trace
  {
    if trace != [] {
      var ip, now := trace[0].ip, trace[0].now;
      CollectAgrees(s, plain, start, now, window);
      GcIsTransparent(AllowCollecting(s, ip, now, limit, window).0, AllowPlain(plain, ip, now, limit, window).0,
                      trace[1..], now, limit, window);
    }
  }

  // ----- clients do not affect each other

  lemma {:induction false} ClientsAreIsolated(ips: Table, trace: seq<Request>, ip: string, limit: int, window: int)
    ensures |PlainDecisions(ips, trace, limit, window)| == |trace|
    ensures DecisionsOf(trace, PlainDecisions(ips, trace, limit, window), ip) ==
            OwnDecisions(Get(ips, ip), TimesOf(trace, ip), limit, window)
    decreases trace
  {
    if trace != [] {
      var (next, ok) := AllowPlain(ips, trace[0].ip, trace[0].now, limit, window);
      ClientsAreIsolated(next, trace[1..], ip, limit, window);
      if trace[0].ip == ip {
        assert TimesOf(trace, ip)[1..] == TimesOf(trace[1..], ip);
      } else {
        assert TimesOf(trace, ip) == TimesOf(trace[1..], ip);
      }
    }
  }

  /** The decisions a fresh limiter gives one IP depend on that IP's request times only. */
  lemma LimiterIsPerClient(trace: seq<Request>, ip: string, start: int, limit: int, window: int)
    requires Ordered(trace, start)
    ensures var decisions := Decisions(State(map[], start), trace, limit, window);
            |decisions| == |trace|
            && DecisionsOf(trace, decisions, ip) == OwnDecisions(None, TimesOf(trace, ip), limit, window)
  {
    GcIsTransparent(State(map[], start), map[], trace, start, limit, window);
    ClientsAreIsolated(map[], trace, ip, limit, window);
  }

  // ----- which requests get through

  /** The request that opened the window of the i-th one: the first of all, or the first that came more than a
      window's length after the one that opened the window before. Refused requests open and prolong nothing. */
  function Opener(times: seq<int>, window: int, i: nat): (o: nat)
    requires i < |times|
    ensures o <= i
  {
    if i == 0 then 0
    else
      var o := Opener(times, window, i - 1);
      if times[i] - times[o] > window then i else o
  }

  /** The i-th request is the first of its window, or among the first `limit`. */
  predicate WithinLimit(times: seq<int>, limit: int, window: int, i: nat)
    requires i < |times|
  {
    var o := Opener(times, window, i);
    i == o || i - o + 1 <= limit
  }

  /** The counter after the first i requests. */
  function CounterAfter(times: seq<int>, window: int, i: nat): Option<IpCounter>
    requires i <= |times|
  {
    if i == 0 then None
    else
      var o := Opener(times, window, i - 1);
      Some(IpCounter(i - o, times[o]))
  }

  lemma {:induction false} DecisionsFrom(times: seq<int>, limit: int, window: int, j: nat, i: nat)
    requires j <= i < |times|
    ensures var rest := OwnDecisions(CounterAfter(times, window, j), times[j..], limit, window);
            |rest| == |times| - j && (rest[i - j] <==> WithinLimit(times, limit, window, i))
    decreases i - j
  {
    var c := CounterAfter(times, window, j);
    var d := Count(c, times[j], limit, window).0;
    assert times[j..][0] == times[j] && times[j..][1..] == times[j + 1..];
    assert Some(d) == CounterAfter(times, window, j + 1);
    OwnDecisionsLength(Some(d), times[j + 1..], limit, window);
    if j < i { DecisionsFrom(times, limit, window, j + 1, i); }
  }

  /** The i-th request of an IP is allowed exactly if it is within the limit of its window. */
  lemma AllowedIff(times: seq<int>, limit: int, window: int, i: nat)
    requires i < |times|
    ensures |OwnDecisions(None, times, limit, window)| == |times|
    ensures OwnDecisions(None, times, limit, window)[i] <==> WithinLimit(times, limit, window, i)
  {
    assert times[0..] == times;
    DecisionsFrom(times, limit, window, 0, i);
  }

  /** The limiter after a trace. */
  function Through(s: State, trace: seq<Request>, limit: int, window: int): State
    decreases trace
  {
    if trace == [] then s
    else Through(AllowCollecting(s, trace[0].ip, trace[0].now, limit, window).0, trace[1..], limit, window)
  }

  lemma {:induction false} OneMoreRequest(s: State, trace: seq<Request>, r: Request, limit: int, window: int)
    ensures var (t, ok) := AllowCollecting(Through(s, trace, limit, window), r.ip, r.now, limit, window);
            && Through(s, trace + [r], limit, window) == t
            && Decisions(s, trace + [r], limit, window) == Decisions(s, trace, limit, window) + [ok]
    decreases trace
  {
    var all := trace + [r];
    if trace == [] {
      assert all == [r] && all[1..] == [];
    } else {
      assert all[1..] == trace[1..] + [r];
      OneMoreRequest(AllowCollecting(s, trace[0].ip, trace[0].now, limit, window).0, trace[1..], r, limit, window);
    }
  }

  lemma {:induction false} OwnLast(trace: seq<Request>, r: Request, decisions: seq<bool>, ok: bool)
    requires |decisions| == |trace|
    ensures TimesOf(trace + [r], r.ip) == TimesOf(trace, r.ip) + [r.now]
    ensures DecisionsOf(trace + [r], decisions + [ok], r.ip) == DecisionsOf(trace, decisions, r.ip) + [ok]
    decreases trace
  {
    var all, oks := trace + [r], decisions + [ok];
    if trace == [] {
      assert all == [r] && all[1..] == [] && oks[1..] == [];
    } else {
      assert all[1..] == trace[1..] + [r] && oks[1..] == decisions[1..] + [ok];
      OwnLast(trace[1..], r, decisions[1..], ok);
    }
  }

  /** What a limiter that has seen this trace says of one more request: it allows it exactly if it is within the
      limit of its window, among all requests of the same IP. */
  lemma NextIsAllowedIff(trace: seq<Request>, r: Request, start: int, limit: int, window: int)
    requires Ordered(trace + [r], start)
    ensures var s, times := Through(State(map[], start), trace, limit, window), TimesOf(trace + [r], r.ip);
            && times != []
            && (AllowCollecting(s, r.ip, r.now, limit, window).1 <==> WithinLimit(times, limit, window, |times| - 1))
  {
    var empty, all := State(map[], start), trace + [r];
    OneMoreRequest(empty, trace, r, limit, window);
    LimiterIsPerClient(all, r.ip, start, limit, window);
    DecisionsLength(empty, trace, limit, window);
    var ok := AllowCollecting(Through(empty, trace, limit, window), r.ip, r.now, limit, window).1;
    OwnLast(trace, r, Decisions(empty, trace, limit, window), ok);
    AllowedIff(TimesOf(all, r.ip), limit, window, |TimesOf(all, r.ip)| - 1);
  }

  lemma {:induction false} DecisionsLength(s: State, trace: seq<Request>, limit: int, window: int)
    ensures |Decisions(s, trace, limit, window)| == |trace|
    decreases trace
  {
    if trace != [] {
      DecisionsLength(AllowCollecting(s, trace[0].ip, trace[0].now, limit, window).0, trace[1..], limit, window);
    }
  }

  /** Collection happens when there are more than ten thousand counters and half a minute has passed since the last;
      then no counter stays that no longer counts. No other counter is ever forgotten. */
  lemma CollectsExactlyStale(s: State, ip: string, now: int, limit: int, window: int)
    requires window >= 0
    ensures var t := AllowCollecting(s, ip, now, limit, window).0;
            var due := |s.ips| > 10_000 && now - s.lastGC > 30_000_000_000;
            && (due ==> t.lastGC == now && forall i :: i in t.ips ==> now - t.ips[i].seen <= window)
            && (!due ==> t.lastGC == s.lastGC && forall i :: i in s.ips ==> i in t.ips)
            && (forall i :: i in s.ips && now - s.ips[i].seen <= window ==> i in t.ips)
  {}

  // ----- how many requests get through

  predicate Sorted(times: seq<int>, start: int) {
    times == [] || (start <= times[0] && Sorted(times[1..], times[0]))
  }

  /** How many requests in the closed interval [t, t + window] were allowed. */
  function AllowedIn(times: seq<int>, decisions: seq<bool>, t: int, window: int): nat
    requires |times| == |decisions|
  {
    if times == [] then 0
    else
      (if decisions[0] && t <= times[0] <= t + window then 1 else 0)
      + AllowedIn(times[1..], decisions[1..], t, window)
  }

  lemma {:induction false} OwnDecisionsLength(c: Option<IpCounter>, times: seq<int>, limit: int, window: int)
    ensures |OwnDecisions(c, times, limit, window)| == |times|
    decreases times
  {
    if times != [] {
      OwnDecisionsLength(Some(Count(c, times[0], limit, window).0), times[1..], limit, window);
    }
  }

  function OwnAllowedIn(c: Option<IpCounter>, times: seq<int>, limit: int, window: int, t: int): nat {
    OwnDecisionsLength(c, times, limit, window);
    AllowedIn(times, OwnDecisions(c, times, limit, window), t, window)
  }

  function Cap(limit: int): int {
    if limit < 1 then 1 else limit
  }

  function Min(a: int, b: int): int {
    if a < b then a else b
  }

  /** What can still get through in [t, t + window], from a counter last used at `cur`. */
  function Remaining(c: Option<IpCounter>, cur: int, limit: int, window: int, t: int): int {
    var cap := Cap(limit);
    if c.None? then 2 * cap - 1
    else if c.value.seen > t + window then 0
    else if c.value.seen >= t then cap - Min(c.value.n, cap)
    else if cur >= t then 2 * cap - Min(c.value.n, cap)
    else 2 * cap - 1
  }

  lemma {:induction false} WindowBound(c: Option<IpCounter>, cur: int, times: seq<int>, limit: int, window: int, t: int)
    requires window >= 0 && Sorted(times, cur)
    requires c.Some? ==> c.value.n >= 1 && c.value.seen <= cur
    ensures OwnAllowedIn(c, times, limit, window, t) <= Remaining(c, cur, limit, window, t)
    decreases times
  {
    if times != [] {
      var (d, ok) := Count(c, times[0], limit, window);
      WindowBound(Some(d), times[0], times[1..], limit, window, t);
      OwnDecisionsLength(Some(d), times[1..], limit, window);
      assert OwnDecisions(c, times, limit, window)[1..] == OwnDecisions(Some(d), times[1..], limit, window);
    }
  }

  lemma {:induction false} TimesAreSorted(trace: seq<Request>, ip: string, start: int, from: int)
    requires Ordered(trace, start) && from <= start
    ensures Sorted(TimesOf(trace, ip), from)
    decreases trace
  {
    if trace != [] {
      if trace[0].ip == ip {
        TimesAreSorted(trace[1..], ip, trace[0].now, trace[0].now);
        assert TimesOf(trace, ip)[1..] == TimesOf(trace[1..], ip);
      } else {
        TimesAreSorted(trace[1..], ip, trace[0].now, from);
        assert TimesOf(trace, ip) == TimesOf(trace[1..], ip);
      }
    }
  }

  /** For every IP, over any trace of all clients' requests, the limiter with its garbage
      collection allows at most twice the limit less one in any closed interval one window long. */
  lemma LimiterBound(trace: seq<Request>, ip: string, start: int, limit: int, window: int, t: int)
    requires window >= 0 && Ordered(trace, start)
    ensures var decisions := Decisions(State(map[], start), trace, limit, window);
            && |decisions| == |trace|
            && |DecisionsOf(trace, decisions, ip)| == |TimesOf(trace, ip)|
            && AllowedIn(TimesOf(trace, ip), DecisionsOf(trace, decisions, ip), t, window) <= 2 * Cap(limit) - 1
  {
    LimiterIsPerClient(trace, ip, start, limit, window);
    OwnDecisionsLength(None, TimesOf(trace, ip), limit, window);
    TimesAreSorted(trace, ip, start, start);
    WindowBound(None, start, TimesOf(trace, ip), limit, window, t);
  }

  function Repeat(x: int, k: nat): seq<int> {
    if k == 0 then [] else [x] + Repeat(x, k - 1)
  }

  lemma {:induction false} RepeatFacts(x: int, k: nat, rest: seq<int>, start: int)
    requires start <= x && Sorted(rest, x)
    ensures Sorted(Repeat(x, k) + rest, start)
  {
    if k == 0 {
      assert Repeat(x, k) + rest == rest;
    } else {
      RepeatFacts(x, k - 1, rest, x);
      assert (Repeat(x, k) + rest)[1..] == Repeat(x, k - 1) + rest;
    }
  }

  /** A burst that stays within the limit gets through whole. */
  lemma {:induction false} BurstCounts(c: IpCounter, x: int, k: nat, rest: seq<int>, limit: int, window: int, t: int)
    requires !Stale(c, x, window) && c.n + k <= limit && t <= x <= t + window
    ensures OwnAllowedIn(Some(c), Repeat(x, k) + rest, limit, window, t) ==
            k + OwnAllowedIn(Some(IpCounter(c.n + k, c.seen)), rest, limit, window, t)
    decreases k
  {
    if k == 0 {
      assert Repeat(x, k) + rest == rest;
    } else {
      var times := Repeat(x, k) + rest;
      var d := IpCounter(c.n + 1, c.seen);
      assert times[1..] == Repeat(x, k - 1) + rest;
      BurstCounts(d, x, k - 1, rest, limit, window, t);
      OwnDecisionsLength(Some(d), times[1..], limit, window);
      assert OwnDecisions(Some(c), times, limit, window)[1..] == OwnDecisions(Some(d), times[1..], limit, window);
    }
  }

  /** One request at 0, limit - 1 at the end of its window, limit at the start of the next. */
  function Straddle(limit: int, window: int): seq<int>
    requires limit >= 1
  {
    [0] + (Repeat(window, limit - 1) + ([window + 1] + Repeat(window + 1, limit - 1)))
  }

  lemma BoundIsReached(limit: int, window: int)
    requires limit >= 1 && window >= 1
    ensures Sorted(Straddle(limit, window), 0)
    ensures OwnAllowedIn(None, Straddle(limit, window), limit, window, window) == 2 * limit - 1
  {
    var k := limit - 1;
    var late := Repeat(window + 1, k);
    var second := [window + 1] + late;
    var first := Repeat(window, k) + second;
    var all := Straddle(limit, window);
    assert all[1..] == first && second[1..] == late;
    assert late == late + [];

    RepeatFacts(window + 1, k, [], window + 1);
    RepeatFacts(window, k, second, 0);

    var window1, window2 := IpCounter(1, 0), IpCounter(1, window + 1);
    FirstRequest(None, all, limit, window, window);
    BurstCounts(window1, window, k, second, limit, window, window);
    FirstRequest(Some(IpCounter(limit, 0)), second, limit, window, window);
    BurstCounts(window2, window + 1, k, [], limit, window, window);
  }

  lemma FirstRequest(c: Option<IpCounter>, times: seq<int>, limit: int, window: int, t: int)
    requires times != []
    ensures var (d, ok) := Count(c, times[0], limit, window);
            OwnAllowedIn(c, times, limit, window, t) ==
            (if ok && t <= times[0] <= t + window then 1 else 0) + OwnAllowedIn(Some(d), times[1..], limit, window, t)
  {
    var d := Count(c, times[0], limit, window).0;
    OwnDecisionsLength(Some(d), times[1..], limit, window);
    assert OwnDecisions(c, times, limit, window)[1..] == OwnDecisions(Some(d), times[1..], limit, window);
  }

  /** The limiter never lets more than `limit` requests through in any interval of a window's
      length: what a sliding window would promise. */
  ghost predicate SlidingWindow(limit: int, window: int) {
    forall times: seq<int>, start: int, t: int ::
      Sorted(times, start) ==> OwnAllowedIn(None, times, limit, window, t) <= limit
  }

  /** It keeps that promise for a limit of exactly one, and for no other. */
  lemma SlidingWindowIffLimitIsOne(limit: int, window: int)
    requires window >= 1
    ensures SlidingWindow(limit, window) <==> limit == 1
  {
    if limit == 1 {
      forall times: seq<int>, start: int, t: int | Sorted(times, start)
        ensures OwnAllowedIn(None, times, limit, window, t) <= limit
      {
        WindowBound(None, start, times, limit, window, t);
      }
    } else if limit > 1 {
      BoundIsReached(limit, window);
      assert Sorted(Straddle(limit, window), 0);
    } else {
      assert Sorted([0], 0);
      FirstRequest(None, [0], limit, window, 0);
      assert OwnAllowedIn(None, [0], limit, window, 0) >= 1;
    }
  }
}
