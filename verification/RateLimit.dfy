/**
 The per-client fixed-window limiter with a daily cap over all clients. `evicting` tells the limiter
 the board runs from the one it must be indistinguishable from, which forgets nobody.
 */
module RateLimit {
  import opened Wrappers

  const MAX_TRACKED_IPS := 10_000

  /** When a client's window began and how many calls it has seen. */
  datatype Entry = Entry(start: real, count: int)

  datatype Settings = Settings(maxRequests: int, window: real, dailyCap: int)

  datatype Limits = Limits(counters: map<string, Entry>, day: int, servedToday: int)

  /** `sinceMidnight` is the UTC time of day in seconds; `now` is the monotonic clock. */
  datatype Call = Call(ip: string, now: real, day: int, sinceMidnight: real)

  datatype Decision = Served | DayFull(retryAfter: int) | TooMany(retryAfter: int)

  function Ceil(x: real): int {
    -((-x).Floor)
  }

  function AtLeastOne(n: int): int {
    if n < 1 then 1 else n
  }

  predicate Expired(s: Settings, e: Entry, now: real) {
    now - e.start >= s.window
  }

  /** The client's entry after this call is counted: a missing or expired one starts afresh. */
  function Bumped(s: Settings, counters: map<string, Entry>, c: Call): Entry {
    if c.ip in counters && !Expired(s, counters[c.ip], c.now)
    then Entry(counters[c.ip].start, counters[c.ip].count + 1)
    else Entry(c.now, 1)
  }

  function Evicted(s: Settings, counters: map<string, Entry>, now: real): map<string, Entry> {
    if |counters| > MAX_TRACKED_IPS then map ip | ip in counters && !Expired(s, counters[ip], now) :: counters[ip]
    else counters
  }

  function Today(state: Limits, c: Call): Limits {
    if c.day != state.day then state.(day := c.day, servedToday := 0) else state
  }

  /** One call: the state it leaves behind and the answer. */
  function Check(s: Settings, state: Limits, c: Call, evicting: bool): (Limits, Decision) {
    var today := Today(state, c);
    if 0 < s.dailyCap <= today.servedToday then
      (today, DayFull(AtLeastOne((86400.0 - c.sinceMidnight).Floor)))
    else
      var e := Bumped(s, today.counters, c);
      var counted := today.counters[c.ip := e];
      if e.count > s.maxRequests then
        (today.(counters := counted), TooMany(AtLeastOne(Ceil(s.window - (c.now - e.start)))))
      else
        (Limits(if evicting then Evicted(s, counted, c.now) else counted, today.day, today.servedToday + 1), Served)
  }

  class RateLimiter {
    const settings: Settings
    var counters: map<string, Entry>
    var day: int
    var servedToday: int

    ghost function Now(): Limits
      reads this
    {
      Limits(counters, day, servedToday)
    }

    constructor (settings: Settings, day: int)
      ensures this.settings == settings && Now() == Limits(map[], day, 0)
    {
      this.settings := settings;
      counters, this.day, servedToday := map[], day, 0;
    }

    method CheckIp(c: Call) returns (d: Decision)
      modifies this
      ensures (Now(), d) == Check(settings, old(Now()), c, true)
    {
      if c.day != day {
        day, servedToday := c.day, 0;
      }
      if 0 < settings.dailyCap <= servedToday {
        return DayFull(AtLeastOne((86400.0 - c.sinceMidnight).Floor));
      }
      var start, count := c.now, 0;
      if c.ip in counters {
        start, count := counters[c.ip].start, counters[c.ip].count;
      }
      if c.now - start >= settings.window {
        start, count := c.now, 0;
      }
      count := count + 1;
      counters := counters[c.ip := Entry(start, count)];
      if count > settings.maxRequests {
        return TooMany(AtLeastOne(Ceil(settings.window - (c.now - start))));
      }
      servedToday := servedToday + 1;
      if |counters| > MAX_TRACKED_IPS {
        EvictExpired(c.now);
      }
      return Served;
    }

    /** The eviction pass: looks at every entry once and deletes the expired ones. */
    method EvictExpired(now: real)
      modifies this`counters
      ensures counters == map ip | ip in old(counters) && !Expired(settings, old(counters)[ip], now)
                            :: old(counters)[ip]
    {
      var tracked, seen := counters, {};
      while seen != tracked.Keys
        invariant seen <= tracked.Keys
        invariant counters == map ip | ip in tracked && (ip in seen ==> !Expired(settings, tracked[ip], now))
                                :: tracked[ip]
        decreases tracked.Keys - seen
      {
        assert tracked.Keys - seen != {};
        var ip :| ip in tracked.Keys - seen;
        if now - tracked[ip].start >= settings.window {
          counters := counters - {ip};
        }
        seen := seen + {ip};
      }
    }

    method Reset(today: int)
      modifies this
      ensures Now() == Limits(map[], today, 0)
    {
      counters, day, servedToday := map[], today, 0;
    }
  }

  /** The answers to a sequence of calls. */
  function Decisions(s: Settings, state: Limits, calls: seq<Call>, evicting: bool): (ds: seq<Decision>)
    ensures |ds| == |calls|
    decreases |calls|
  {
    if calls == [] then []
    else
      var (after, d) := Check(s, state, calls[0], evicting);
      [d] + Decisions(s, after, calls[1..], evicting)
  }

  function After(s: Settings, state: Limits, calls: seq<Call>, evicting: bool): Limits
    decreases |calls|
  {
    if calls == [] then state else After(s, Check(s, state, calls[0], evicting).0, calls[1..], evicting)
  }

  ghost predicate ClockOrder(calls: seq<Call>) {
    forall i, j :: 0 <= i < j < |calls| ==> calls[i].now <= calls[j].now
  }

  ghost predicate DayOrder(calls: seq<Call>) {
    forall i, j :: 0 <= i < j < |calls| ==> calls[i].day <= calls[j].day
  }

  /** The evicting limiter has forgotten only clients whose window is over by `now`. */
  ghost predicate ForgotOnlyExpired(s: Settings, a: Limits, b: Limits, now: real) {
    && a.day == b.day && a.servedToday == b.servedToday
    && (forall ip :: ip in a.counters ==> ip in b.counters && a.counters[ip] == b.counters[ip])
    && (forall ip :: ip in b.counters && ip !in a.counters ==> Expired(s, b.counters[ip], now))
  }

  lemma ForgettingStaysHarmless(s: Settings, a: Limits, b: Limits, c: Call)
    requires ForgotOnlyExpired(s, a, b, c.now)
    ensures var (a', d) := Check(s, a, c, true);
            var (b', e) := Check(s, b, c, false);
            d == e && ForgotOnlyExpired(s, a', b', c.now)
  {
  }

  /** Eviction is invisible: for calls in clock order every answer is the one a limiter that never forgets gives. */
  lemma {:induction false} EvictionIsInvisible(s: Settings, a: Limits, b: Limits, calls: seq<Call>)
    requires ClockOrder(calls) && (calls != [] ==> ForgotOnlyExpired(s, a, b, calls[0].now))
    ensures Decisions(s, a, calls, true) == Decisions(s, b, calls, false)
    decreases |calls|
  {
    if calls != [] {
      ForgettingStaysHarmless(s, a, b, calls[0]);
      EvictionIsInvisible(s, Check(s, a, calls[0], true).0, Check(s, b, calls[0], false).0, calls[1..]);
    }
  }

  /** How long the bound looks: a window, or one instant where the window does not last. */
  function Span(s: Settings): real {
    if s.window < 0.0 then 0.0 else s.window
  }

  /** A client's calls that were served at times in [from, from + Span]. */
  function ServedWithin(s: Settings, calls: seq<Call>, ds: seq<Decision>, ip: string, from: real): nat
    requires |calls| == |ds|
  {
    if calls == [] then 0
    else
      (if ds[0].Served? && calls[0].ip == ip && from <= calls[0].now <= from + Span(s) then 1 else 0)
      + ServedWithin(s, calls[1..], ds[1..], ip, from)
  }

  /** What the client may still be served in the interval, given its current window. */
  function Allowance(s: Settings, state: Limits, ip: string, from: real): int {
    var m := if s.maxRequests < 0 then 0 else s.maxRequests;
    if ip !in state.counters then 2 * m
    else
      var e := state.counters[ip];
      var left := if e.count >= m then 0 else m - e.count;
      if e.start + s.window <= from then 2 * m
      else if e.start <= from then m + left
      else if e.start <= from + s.window then left
      else 0
  }

  lemma OneCallUsesAllowance(s: Settings, state: Limits, c: Call, ip: string, from: real)
    requires s.window > 0.0
    requires forall x :: x in state.counters ==> state.counters[x].start <= c.now && state.counters[x].count >= 0
    ensures var (after, d) := Check(s, state, c, false);
            var used := if d.Served? && c.ip == ip && from <= c.now <= from + s.window then 1 else 0;
            && used + Allowance(s, after, ip, from) <= Allowance(s, state, ip, from)
            && (forall x :: x in after.counters ==> after.counters[x].start <= c.now && after.counters[x].count >= 0)
  {
  }

  lemma AllowanceBounds(s: Settings, state: Limits, ip: string, from: real)
    requires forall x :: x in state.counters ==> state.counters[x].count >= 0
    ensures 0 <= Allowance(s, state, ip, from) <= if s.maxRequests < 0 then 0 else 2 * s.maxRequests
  {
  }

  lemma {:induction false} AllowanceIsEnough(s: Settings, state: Limits, calls: seq<Call>, ip: string, from: real)
    requires s.window > 0.0 && ClockOrder(calls)
    requires forall x :: x in state.counters ==>
               (calls != [] ==> state.counters[x].start <= calls[0].now) && state.counters[x].count >= 0
    ensures ServedWithin(s, calls, Decisions(s, state, calls, false), ip, from) <= Allowance(s, state, ip, from)
    decreases |calls|
  {
    AllowanceBounds(s, state, ip, from);
    if calls != [] {
      var (after, d) := Check(s, state, calls[0], false);
      OneCallUsesAllowance(s, state, calls[0], ip, from);
      AllowanceIsEnough(s, after, calls[1..], ip, from);
      assert Decisions(s, state, calls, false)[1..] == Decisions(s, after, calls[1..], false);
    }
  }

  /** In any interval as long as the window, the running limiter serves a client at most twice the maximum. */
  lemma TwiceTheMaximum(s: Settings, day: int, calls: seq<Call>, ip: string, from: real)
    requires s.window > 0.0 && ClockOrder(calls)
    ensures ServedWithin(s, calls, Decisions(s, Limits(map[], day, 0), calls, true), ip, from)
            <= if s.maxRequests < 0 then 0 else 2 * s.maxRequests
  {
    var start := Limits(map[], day, 0);
    EvictionIsInvisible(s, start, start, calls);
    AllowanceIsEnough(s, start, calls, ip, from);
    AllowanceBounds(s, start, ip, from);
  }

  function Burst(c: Call, n: nat): seq<Call> {
    seq(n, _ => c)
  }

  /** Where no window lasts, one instant serves a client any number of times, short of the day's cap. */
  lemma {:induction false} BurstIsServed(s: Settings, state: Limits, c: Call, n: nat)
    requires s.window <= 0.0 && s.maxRequests >= 1
    requires s.dailyCap <= 0 || Today(state, c).servedToday + n <= s.dailyCap
    requires c.ip in state.counters ==> state.counters[c.ip].start <= c.now
    ensures forall i :: 0 <= i < n ==> Decisions(s, state, Burst(c, n), true)[i] == Served
    decreases n
  {
    if n > 0 {
      var (after, d) := Check(s, state, c, true);
      assert Burst(c, n)[1..] == Burst(c, n - 1);
      BurstIsServed(s, after, c, n - 1);
      assert Decisions(s, state, Burst(c, n), true) == [d] + Decisions(s, after, Burst(c, n - 1), true);
      assert d == Served;
    }
  }

  lemma {:induction false} AllServedCount(s: Settings, c: Call, ds: seq<Decision>)
    requires forall i :: 0 <= i < |ds| ==> ds[i] == Served
    ensures ServedWithin(s, Burst(c, |ds|), ds, c.ip, c.now) == |ds|
  {
    if |ds| > 0 {
      assert Burst(c, |ds|)[1..] == Burst(c, |ds| - 1);
      AllServedCount(s, c, ds[1..]);
    }
  }

  /** Calls at one instant are on one day. */
  ghost predicate OneDay(calls: seq<Call>) {
    forall i, j :: 0 <= i < j < |calls| && calls[i].now == calls[j].now ==> calls[i].day == calls[j].day
  }

  /** What the day still allows at the instant `from`. */
  function DayAllowance(s: Settings, state: Limits, calls: seq<Call>, from: real): int {
    if calls == [] || calls[0].now > from then 0
    else if calls[0].now == from then s.dailyCap - Today(state, calls[0]).servedToday
    else s.dailyCap
  }

  lemma {:induction false} LaterIsNotWithin(s: Settings, calls: seq<Call>, ds: seq<Decision>, ip: string, from: real)
    requires |calls| == |ds| && Span(s) == 0.0 && ClockOrder(calls) && (calls != [] ==> calls[0].now > from)
    ensures ServedWithin(s, calls, ds, ip, from) == 0
  {
    if calls != [] {
      assert |calls| > 1 ==> calls[0].now <= calls[1].now;
      LaterIsNotWithin(s, calls[1..], ds[1..], ip, from);
    }
  }

  lemma {:induction false} CapBoundsAnInstant(s: Settings, state: Limits, calls: seq<Call>, ip: string, from: real)
    requires s.window <= 0.0 && s.dailyCap > 0 && 0 <= state.servedToday <= s.dailyCap
    requires ClockOrder(calls) && OneDay(calls)
    ensures ServedWithin(s, calls, Decisions(s, state, calls, true), ip, from) <= DayAllowance(s, state, calls, from)
    decreases |calls|
  {
    if calls != [] {
      var ds := Decisions(s, state, calls, true);
      if calls[0].now > from {
        LaterIsNotWithin(s, calls, ds, ip, from);
      } else {
        var (after, d) := Check(s, state, calls[0], true);
        CapBoundsAnInstant(s, after, calls[1..], ip, from);
        assert ds[1..] == Decisions(s, after, calls[1..], true);
        assert |calls| > 1 ==> calls[0].now <= calls[1].now;
        assert |calls| > 1 && calls[0].now == calls[1].now ==> calls[0].day == calls[1].day;
      }
    }
  }

  lemma {:induction false} NothingServed(s: Settings, state: Limits, calls: seq<Call>, ip: string, from: real)
    requires s.maxRequests <= 0 && forall x :: x in state.counters ==> state.counters[x].count >= 0
    ensures ServedWithin(s, calls, Decisions(s, state, calls, true), ip, from) == 0
    decreases |calls|
  {
    if calls != [] {
      var (after, d) := Check(s, state, calls[0], true);
      NothingServed(s, after, calls[1..], ip, from);
      assert Decisions(s, state, calls, true)[1..] == Decisions(s, after, calls[1..], true);
    }
  }

  /** No run of calls gets a client more than twice the maximum in a window, or in an instant. */
  ghost predicate ServesAtMostTwice(s: Settings, day: int) {
    forall calls, ip, from :: ClockOrder(calls) && OneDay(calls) ==>
      ServedWithin(s, calls, Decisions(s, Limits(map[], day, 0), calls, true), ip, from)
      <= if s.maxRequests < 0 then 0 else 2 * s.maxRequests
  }

  /** The settings that keep the promise: a window that lasts, nothing to serve, or a cap that is small enough. */
  predicate Bounded(s: Settings) {
    s.window > 0.0 || s.maxRequests <= 0 || 0 < s.dailyCap <= 2 * s.maxRequests
  }

  lemma BurstExceeds(s: Settings, day: int)
    requires !Bounded(s)
    ensures !ServesAtMostTwice(s, day)
  {
    var c, n, start := Call("", 0.0, day, 0.0), 2 * s.maxRequests + 1, Limits(map[], day, 0);
    var ds := Decisions(s, start, Burst(c, n), true);
    BurstIsServed(s, start, c, n);
    AllServedCount(s, c, ds);
    assert ClockOrder(Burst(c, n)) && OneDay(Burst(c, n));
    assert ServedWithin(s, Burst(c, n), ds, c.ip, c.now) > 2 * s.maxRequests;
  }

  /** Exactly those settings bound what a client is served. */
  lemma BoundedIff(s: Settings, day: int)
    ensures ServesAtMostTwice(s, day) <==> Bounded(s)
  {
    var start := Limits(map[], day, 0);
    if Bounded(s) {
      forall calls, ip, from | ClockOrder(calls) && OneDay(calls)
        ensures ServedWithin(s, calls, Decisions(s, start, calls, true), ip, from)
             <= if s.maxRequests < 0 then 0 else 2 * s.maxRequests
      {
        if s.window > 0.0 {
          TwiceTheMaximum(s, day, calls, ip, from);
        } else if s.maxRequests <= 0 {
          NothingServed(s, start, calls, ip, from);
        } else {
          CapBoundsAnInstant(s, start, calls, ip, from);
        }
      }
    } else {
      BurstExceeds(s, day);
    }
  }

  function ServedOn(calls: seq<Call>, ds: seq<Decision>, day: int): nat
    requires |calls| == |ds|
  {
    if calls == [] then 0
    else (if ds[0].Served? && calls[0].day == day then 1 else 0) + ServedOn(calls[1..], ds[1..], day)
  }

  /** At most the cap is served on a day, whatever the clients and however many they are. */
  lemma {:induction false} DailyCapHolds(s: Settings, state: Limits, calls: seq<Call>, evicting: bool, day: int)
    requires s.dailyCap > 0 && DayOrder(calls) && 0 <= state.servedToday <= s.dailyCap
    requires calls != [] ==> state.day <= calls[0].day
    ensures ServedOn(calls, Decisions(s, state, calls, evicting), day)
            <= if day < state.day then 0 else if day == state.day then s.dailyCap - state.servedToday else s.dailyCap
    decreases |calls|
  {
    if calls != [] {
      var (after, d) := Check(s, state, calls[0], evicting);
      DailyCapHolds(s, after, calls[1..], evicting, day);
      assert Decisions(s, state, calls, evicting)[1..] == Decisions(s, after, calls[1..], evicting);
    }
  }

  /** A call refused by the client's own window, or by the day, does not use up the day. */
  lemma RefusedCallsAreFree(s: Settings, state: Limits, c: Call, evicting: bool)
    ensures var (after, d) := Check(s, state, c, evicting);
            after.servedToday == Today(state, c).servedToday + (if d.Served? then 1 else 0) && after.day == c.day
  { }

  /** What a day has used up is what it has served: refused calls, by the window or by the day, are free. */
  lemma {:induction false} DayCountsOnlyServed(s: Settings, state: Limits, calls: seq<Call>, evicting: bool)
    requires DayOrder(calls) && (calls != [] ==> state.day <= calls[0].day)
    ensures var end := After(s, state, calls, evicting);
            && end.day >= state.day
            && end.servedToday == ServedOn(calls, Decisions(s, state, calls, evicting), end.day)
                                  + if end.day == state.day then state.servedToday else 0
    decreases |calls|
  {
    if calls != [] {
      var (after, d) := Check(s, state, calls[0], evicting);
      RefusedCallsAreFree(s, state, calls[0], evicting);
      assert |calls| > 1 ==> calls[0].day <= calls[1].day;
      DayCountsOnlyServed(s, after, calls[1..], evicting);
      assert Decisions(s, state, calls, evicting)[1..] == Decisions(s, after, calls[1..], evicting);
    }
  }

  /** Nobody else's calls move a client's window: it stands, or it was forgotten after it ended. */
  lemma {:induction false} WindowStands(s: Settings, state: Limits, calls: seq<Call>, ip: string, until: real)
    requires ip in state.counters ==> state.counters[ip].start + s.window <= until
    requires forall i :: 0 <= i < |calls| ==> calls[i].ip != ip
    ensures var end := After(s, state, calls, true);
            ip in end.counters ==> end.counters[ip].start + s.window <= until
    decreases |calls|
  {
    if calls != [] {
      WindowStands(s, Check(s, state, calls[0], true).0, calls[1..], ip, until);
    }
  }

  /** Waiting the reported Retry-After always reaches a fresh window, in which the next call is the first. */
  lemma RetryAfterSuffices(s: Settings, state: Limits, c: Call, others: seq<Call>, again: Call)
    requires var (after, d) := Check(s, state, c, true); d.TooMany? && again.now >= c.now + d.retryAfter as real
    requires again.ip == c.ip && forall i :: 0 <= i < |others| ==> others[i].ip != c.ip
    ensures var late := After(s, Check(s, state, c, true).0, others, true);
            && Bumped(s, late.counters, again) == Entry(again.now, 1)
            && (s.maxRequests >= 1 ==> !Check(s, late, again, true).1.TooMany?)
  {
    var (after, d) := Check(s, state, c, true);
    assert after.counters[c.ip].start + s.window <= c.now + d.retryAfter as real;
    WindowStands(s, after, others, c.ip, again.now);
  }
}
