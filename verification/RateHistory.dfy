/**
 Every answer of the rate limiter, told from the calls before it: how many its client made in its
 current window, and how many of all were served that day.
 */
module RateHistory {
  import opened Wrappers
  import opened RateLimit

  // ---- Counting ----

  /** How many of the first `n` numbers have the property. */
  function Count(n: nat, p: nat -> bool): nat {
    if n == 0 then 0 else Count(n - 1, p) + if p(n - 1) then 1 else 0
  }

  lemma {:induction false} CountAtMost(n: nat, p: nat -> bool, q: nat -> bool)
    requires forall k: nat :: k < n && p(k) ==> q(k)
    ensures Count(n, p) <= Count(n, q)
  {
    if n > 0 { CountAtMost(n - 1, p, q); }
  }

  lemma {:induction false} CountNone(n: nat, p: nat -> bool)
    requires forall k: nat :: k < n ==> !p(k)
    ensures Count(n, p) == 0
  {
    if n > 0 { CountNone(n - 1, p); }
  }

  /** The client's calls since `from`, that instant not included, however they were answered. */
  function CallsSince(calls: seq<Call>, ip: string, from: real): nat -> bool {
    (k: nat) => k < |calls| && calls[k].ip == ip && calls[k].now > from
  }

  /** The calls of all clients that were served that day. */
  function ServedThatDay(calls: seq<Call>, ds: seq<Decision>, day: int): nat -> bool {
    (k: nat) => k < |calls| && k < |ds| && calls[k].day == day && ds[k].Served?
  }

  /** The client's calls from call `first` on that the day's cap did not turn away. */
  function CountedFrom(calls: seq<Call>, ds: seq<Decision>, ip: string, first: nat): nat -> bool {
    (k: nat) => first <= k < |calls| && k < |ds| && calls[k].ip == ip && !ds[k].DayFull?
  }

  /**
   Which of the first `n` calls opened the client's latest window: a call the day's cap did not turn
   away opens one unless the window before it still lasts.
   */
  function Opening(s: Settings, calls: seq<Call>, ds: seq<Decision>, ip: string, n: nat): (first: Option<nat>)
    requires n <= |calls| == |ds|
    ensures first.Some? ==> first.value < n && calls[first.value].ip == ip
  {
    if n == 0 then None
    else
      var before := Opening(s, calls, ds, ip, n - 1);
      if calls[n - 1].ip != ip || ds[n - 1].DayFull? then before
      else if before.Some? && calls[n - 1].now - calls[before.value].now < s.window then before
      else Some(n - 1)
  }

  // ---- The limiter along its calls ----

  function StateAt(s: Settings, state: Limits, calls: seq<Call>, n: nat): Limits
    requires n <= |calls|
  {
    if n == 0 then state else Check(s, StateAt(s, state, calls, n - 1), calls[n - 1], false).0
  }

  function AnswerOn(s: Settings, state: Limits, c: Call): Decision {
    Check(s, state, c, false).1
  }

  lemma {:induction false} StateFromSecond(s: Settings, state: Limits, calls: seq<Call>, n: nat)
    requires 0 < n <= |calls|
    ensures StateAt(s, state, calls, n) == StateAt(s, StateAt(s, state, calls, 1), calls[1..], n - 1)
  {
    assert StateAt(s, state, calls, 0) == state;
    if n > 1 { StateFromSecond(s, state, calls, n - 1); }
  }

  lemma DecisionsStart(s: Settings, state: Limits, calls: seq<Call>)
    requires calls != []
    ensures Decisions(s, state, calls, false) ==
            [AnswerOn(s, state, calls[0])] + Decisions(s, StateAt(s, state, calls, 1), calls[1..], false)
  {
    assert StateAt(s, state, calls, 0) == state;
  }

  lemma {:induction false} AnswerAt(s: Settings, state: Limits, calls: seq<Call>, i: nat)
    requires i < |calls|
    ensures Decisions(s, state, calls, false)[i] == AnswerOn(s, StateAt(s, state, calls, i), calls[i])
    decreases |calls|
  {
    DecisionsStart(s, state, calls);
    if i == 0 {
      assert StateAt(s, state, calls, 0) == state;
    } else {
      StateFromSecond(s, state, calls, i);
      AnswerAt(s, StateAt(s, state, calls, 1), calls[1..], i - 1);
    }
  }

  /** The answers of the board's own limiter, from its start on a day. */
  function Answers(s: Settings, day: int, calls: seq<Call>): (ds: seq<Decision>)
    ensures |ds| == |calls|
  {
    Decisions(s, Limits(map[], day, 0), calls, true)
  }

  lemma AnswerIs(s: Settings, day: int, calls: seq<Call>, i: nat)
    requires i < |calls| && ClockOrder(calls)
    ensures Answers(s, day, calls)[i] == AnswerOn(s, StateAt(s, Limits(map[], day, 0), calls, i), calls[i])
  {
    var start := Limits(map[], day, 0);
    EvictionIsInvisible(s, start, start, calls);
    AnswerAt(s, start, calls, i);
  }

  // ---- Windows ----

  /** The limiter's entry for a client is its latest window: when it opened, and the calls it has counted. */
  ghost predicate ShowsWindow(s: Settings, state: Limits, calls: seq<Call>, ds: seq<Decision>, ip: string, n: nat)
    requires n <= |calls| == |ds|
  {
    var first := Opening(s, calls, ds, ip, n);
    && (ip in state.counters <==> first.Some?)
    && (first.Some? ==>
          state.counters[ip] == Entry(calls[first.value].now, Count(n, CountedFrom(calls, ds, ip, first.value))))
  }

  lemma CountedAfresh(calls: seq<Call>, ds: seq<Decision>, n: nat)
    requires n < |calls| == |ds| && !ds[n].DayFull?
    ensures Count(n + 1, CountedFrom(calls, ds, calls[n].ip, n)) == 1
  {
    CountNone(n, CountedFrom(calls, ds, calls[n].ip, n));
  }

  lemma WindowMore(s: Settings, state: Limits, calls: seq<Call>, ds: seq<Decision>, ip: string, n: nat)
    requires n < |calls| == |ds| && ShowsWindow(s, state, calls, ds, ip, n)
    requires ds[n] == AnswerOn(s, state, calls[n])
    ensures ShowsWindow(s, Check(s, state, calls[n], false).0, calls, ds, ip, n + 1)
  {
    if !ds[n].DayFull? { CountedAfresh(calls, ds, n); }
  }

  lemma {:induction false} WindowAt(s: Settings, day: int, calls: seq<Call>, ip: string, n: nat)
    requires n <= |calls| && ClockOrder(calls)
    ensures ShowsWindow(s, StateAt(s, Limits(map[], day, 0), calls, n), calls, Answers(s, day, calls), ip, n)
  {
    if n > 0 {
      WindowAt(s, day, calls, ip, n - 1);
      AnswerIs(s, day, calls, n - 1);
      WindowMore(s, StateAt(s, Limits(map[], day, 0), calls, n - 1), calls, Answers(s, day, calls), ip, n - 1);
    }
  }

  // ---- Days ----

  lemma {:induction false} DayAt(s: Settings, day: int, calls: seq<Call>, n: nat)
    requires n <= |calls| && ClockOrder(calls) && DayOrder(calls) && (calls != [] ==> day <= calls[0].day)
    ensures var state := StateAt(s, Limits(map[], day, 0), calls, n);
            && state.day == (if n == 0 then day else calls[n - 1].day)
            && state.servedToday == Count(n, ServedThatDay(calls, Answers(s, day, calls), state.day))
  {
    if n > 0 {
      var state, ds := StateAt(s, Limits(map[], day, 0), calls, n - 1), Answers(s, day, calls);
      DayAt(s, day, calls, n - 1);
      AnswerIs(s, day, calls, n - 1);
      if calls[n - 1].day != state.day { NoneServedYet(calls, ds, n - 1, day); }
      RefusedCallsAreFree(s, state, calls[n - 1], false);
    }
  }

  /** On a new day nothing has been served. */
  lemma NoneServedYet(calls: seq<Call>, ds: seq<Decision>, n: nat, day: int)
    requires n < |calls| == |ds| && DayOrder(calls) && calls[n].day != if n == 0 then day else calls[n - 1].day
    ensures Count(n, ServedThatDay(calls, ds, calls[n].day)) == 0
  {
    forall k: nat | k < n ensures !ServedThatDay(calls, ds, calls[n].day)(k) {
      assert k < n - 1 ==> calls[k].day <= calls[n - 1].day;
      assert calls[n - 1].day <= calls[n].day;
    }
    CountNone(n, ServedThatDay(calls, ds, calls[n].day));
  }

  // ---- Answers ----

  /** The day's cap turns a call away exactly if that many calls were served earlier that day. */
  lemma DayFullExact(s: Settings, day: int, calls: seq<Call>, i: nat)
    requires i < |calls| && ClockOrder(calls) && DayOrder(calls) && day <= calls[0].day
    ensures var ds := Answers(s, day, calls);
            ds[i].DayFull? <==> 0 < s.dailyCap <= Count(i, ServedThatDay(calls, ds, calls[i].day))
  {
    var state, ds := StateAt(s, Limits(map[], day, 0), calls, i), Answers(s, day, calls);
    AnswerIs(s, day, calls, i);
    DayAt(s, day, calls, i);
    if calls[i].day != state.day { NoneServedYet(calls, ds, i, day); }
  }

  /**
   A call the day does not turn away is one too many exactly if its window has counted more than the
   maximum with it, and then the wait it is told is what is left of the window, in whole seconds.
   */
  lemma TooManyExact(s: Settings, day: int, calls: seq<Call>, i: nat)
    requires i < |calls| && ClockOrder(calls) && !Answers(s, day, calls)[i].DayFull?
    ensures var ds, c := Answers(s, day, calls), calls[i];
            var first := Opening(s, calls, ds, c.ip, i + 1);
            && first.Some?
            && (ds[i].TooMany? <==> Count(i + 1, CountedFrom(calls, ds, c.ip, first.value)) > s.maxRequests)
            && (ds[i].TooMany? ==>
                  var left := calls[first.value].now + s.window - c.now;
                  ds[i].retryAfter == if left <= 1.0 then 1 else Ceil(left))
  {
    var state, ds, c := StateAt(s, Limits(map[], day, 0), calls, i), Answers(s, day, calls), calls[i];
    AnswerIs(s, day, calls, i);
    WindowAt(s, day, calls, c.ip, i);
    WindowMore(s, state, calls, ds, c.ip, i);
  }

  /** The latest window opened within a window of the call, unless windows do not last. */
  lemma {:induction false} OpeningIsRecent(s: Settings, calls: seq<Call>, ds: seq<Decision>, n: nat)
    requires n < |calls| == |ds| && !ds[n].DayFull?
    ensures var first := Opening(s, calls, ds, calls[n].ip, n + 1);
            first.Some? && (first.value == n || calls[n].now - calls[first.value].now < s.window)
  { }

  /** A client is only ever told to slow down after it made the maximum of calls within the last window. */
  lemma TooManyHasCause(s: Settings, day: int, calls: seq<Call>, i: nat)
    requires i < |calls| && ClockOrder(calls) && Answers(s, day, calls)[i].TooMany?
    ensures Count(i, CallsSince(calls, calls[i].ip, calls[i].now - s.window)) >= s.maxRequests
  {
    var ds, c := Answers(s, day, calls), calls[i];
    TooManyExact(s, day, calls, i);
    OpeningIsRecent(s, calls, ds, i);
    var first := Opening(s, calls, ds, c.ip, i + 1).value;
    if first == i {
      CountedAfresh(calls, ds, i);
    } else {
      forall k: nat | k < i && CountedFrom(calls, ds, c.ip, first)(k)
        ensures CallsSince(calls, c.ip, c.now - s.window)(k)
      {
        assert k > first ==> calls[first].now <= calls[k].now;
      }
      CountAtMost(i, CountedFrom(calls, ds, c.ip, first), CallsSince(calls, c.ip, c.now - s.window));
    }
  }

  /** So a client that has made fewer calls than that within the last window is served, unless the day is full. */
  lemma WithinLimitIsServed(s: Settings, day: int, calls: seq<Call>, i: nat)
    requires i < |calls| && ClockOrder(calls) && DayOrder(calls) && day <= calls[0].day
    requires Count(i, CallsSince(calls, calls[i].ip, calls[i].now - s.window)) < s.maxRequests
    requires 0 < s.dailyCap ==> Count(i, ServedThatDay(calls, Answers(s, day, calls), calls[i].day)) < s.dailyCap
    ensures Answers(s, day, calls)[i] == Served
  {
    DayFullExact(s, day, calls, i);
    if Answers(s, day, calls)[i].TooMany? { TooManyHasCause(s, day, calls, i); }
  }

  // ---- The waits that are told ----

  /**
   A second less than the wait of a refused call is not enough: the window still lasts and the next
   call is refused too.
   */
  lemma RetryAfterIsLeast(s: Settings, state: Limits, c: Call, again: Call)
    requires again.ip == c.ip && again.day == c.day && c.now <= again.now
    requires var (after, d) := Check(s, state, c, true);
             d.TooMany? && d.retryAfter > 1 && again.now <= c.now + (d.retryAfter - 1) as real
    ensures Check(s, Check(s, state, c, true).0, again, true).1.TooMany?
  {
    var (after, d) := Check(s, state, c, true);
    var left := s.window - (c.now - after.counters[c.ip].start);
    CeilBounds(left);
    assert again.now - after.counters[c.ip].start < s.window;
  }

  lemma CeilBounds(x: real)
    ensures x <= Ceil(x) as real < x + 1.0
  { }

  /** The wait told by a full day reaches midnight exactly if it is a whole number of seconds off, or less than one. */
  lemma DayWaitReachesMidnight(s: Settings, state: Limits, c: Call, evicting: bool)
    requires 0.0 <= c.sinceMidnight < 86400.0
    requires Check(s, state, c, evicting).1.DayFull?
    ensures var left := 86400.0 - c.sinceMidnight;
            var wait := Check(s, state, c, evicting).1.retryAfter as real;
            && (wait >= left <==> left <= 1.0 || left == left.Floor as real)
            && left - 1.0 < wait && wait <= if left <= 1.0 then 1.0 else left
  { }
}
