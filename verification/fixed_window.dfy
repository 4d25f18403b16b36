/**
 The fixed-window counter both Lua scripts share: INCR, EXPIRE on the first increment,
 and an admission test on the count. Times are in milliseconds of the Redis clock, which
 never goes back; a key that expires at `e` is gone from `e` on.

 A limiter carries the log of its calls beside the key, so that statements can speak
 about all admissions so far. `first` is the log index of the call that opened the window.
 */
module FixedWindow {
  import opened Finite
  import opened Wrappers

  datatype Window = Window(count: nat, expiresAt: int)

  datatype Call = Call(at: int, start: int, first: nat, admitted: bool)

  datatype Limiter = Limiter(window: Option<Window>, log: seq<Call>)

  const Fresh := Limiter(None, [])

  predicate Alive(w: Option<Window>, now: int) {
    w.Some? && now < w.value.expiresAt
  }

  function Increment(w: Option<Window>, now: int, length: int): Window {
    if Alive(w, now) then w.value.(count := w.value.count + 1) else Window(1, now + length)
  }

  /** One run of the script. */
  function Hit(l: Limiter, now: int, limit: int, length: int): Limiter {
    var w := Increment(l.window, now, length);
    var first := if Alive(l.window, now) && l.log != [] then l.log[|l.log| - 1].first else |l.log|;
    Limiter(Some(w), l.log + [Call(now, w.expiresAt - length, first, w.count <= limit)])
  }

  function Last(l: Limiter): Call
    requires l.log != []
  {
    l.log[|l.log| - 1]
  }

  function InWindow(log: seq<Call>, start: int): set<nat> {
    set i: nat | i < |log| && log[i].start == start && log[i].admitted
  }

  function AdmittedIn(log: seq<Call>, lo: int, hi: int): set<nat> {
    set i: nat | i < |log| && lo <= log[i].at < hi && log[i].admitted
  }

  /** A call lies in its window, and the window's first call is admitted and opens it. */
  predicate Placed(log: seq<Call>, i: nat, length: int)
    requires i < |log|
  {
    var c := log[i];
    && c.start <= c.at < c.start + length
    && c.first <= i
    && log[c.first].admitted && log[c.first].at == c.start && log[c.first].start == c.start
  }

  /** Calls are in time order, and two windows start at least one length apart. */
  predicate Ordered(a: Call, b: Call, length: int) {
    a.at <= b.at && (a.start == b.start || a.start + length <= b.start)
  }

  ghost predicate LogValid(log: seq<Call>, length: int) {
    && (forall i: nat :: i < |log| ==> Placed(log, i, length))
    && (forall i: nat, j: nat :: i < j < |log| ==> Ordered(log[i], log[j], length))
  }

  /** The live key carries an expiry exactly one window after its first increment. */
  ghost predicate Valid(l: Limiter, limit: int, length: int) {
    && LogValid(l.log, length)
    && (l.window.None? <==> l.log == [])
    && (l.window.Some? ==> Last(l).start + length == l.window.value.expiresAt)
    && (l.window.Some? ==> |InWindow(l.log, Last(l).start)| <= l.window.value.count)
    && (forall s :: |InWindow(l.log, s)| <= limit)
  }

  lemma InWindowGrows(log: seq<Call>, c: Call, s: int)
    ensures InWindow(log + [c], s) == InWindow(log, s) + (if c.start == s && c.admitted then {|log|} else {})
  {
  }

  lemma LogGrows(l: Limiter, now: int, limit: int, length: int)
    requires Valid(l, limit, length) && limit >= 1 && length >= 1
    requires l.log == [] || Last(l).at <= now
    ensures LogValid(Hit(l, now, limit, length).log, length)
  {
    var n := Hit(l, now, limit, length).log;
    var last := |l.log|;
    if last > 0 {
      assert Placed(l.log, last - 1, length);
    }
    forall i: nat | i < |n| ensures Placed(n, i, length) {
      if i < last {
        assert Placed(l.log, i, length);
      }
    }
    forall i: nat, j: nat | i < j < |n| ensures Ordered(n[i], n[j], length) {
      if j < last {
        assert Ordered(l.log[i], l.log[j], length);
      } else if i < last - 1 {
        assert Ordered(l.log[i], l.log[last - 1], length);
      }
    }
  }

  lemma NewWindowIsEmpty(l: Limiter, now: int, limit: int, length: int)
    requires Valid(l, limit, length) && !Alive(l.window, now)
    ensures InWindow(l.log, now) == {}
  {
    forall i: nat | i < |l.log| ensures l.log[i].start != now {
      var last := |l.log| - 1;
      assert Placed(l.log, i, length) && Placed(l.log, last, length);
      assert i == last || Ordered(l.log[i], l.log[last], length);
    }
  }

  lemma HitKeepsValid(l: Limiter, now: int, limit: int, length: int)
    requires Valid(l, limit, length) && limit >= 1 && length >= 1
    requires l.log == [] || Last(l).at <= now
    ensures Valid(Hit(l, now, limit, length), limit, length)
  {
    LogGrows(l, now, limit, length);
    var n := Hit(l, now, limit, length);
    var c := Last(n);
    InWindowGrows(l.log, c, c.start);
    if !Alive(l.window, now) {
      NewWindowIsEmpty(l, now, limit, length);
    }
    forall s ensures |InWindow(n.log, s)| <= limit {
      InWindowGrows(l.log, c, s);
      assert |InWindow(l.log, s)| <= limit;
    }
  }

  /** The calls of a window stand in a row, and exactly as many of them as the limit allows were admitted, the first ones. */
  predicate CountedInWindow(log: seq<Call>, i: nat, limit: int)
    requires i < |log|
  {
    var first := log[i].first;
    && first <= i
    && (log[i].admitted <==> i - first < limit)
    && (forall j: nat :: first <= j <= i ==> log[j].first == first && log[j].start == log[i].start)
  }

  /** The counter is the number of calls its window has had. */
  ghost predicate Exact(l: Limiter, limit: int) {
    && (l.window.None? <==> l.log == [])
    && (l.window.Some? ==> l.window.value.count == |l.log| - Last(l).first)
    && (forall i: nat :: i < |l.log| ==> CountedInWindow(l.log, i, limit))
  }

  lemma HitKeepsExact(l: Limiter, now: int, limit: int, length: int)
    requires Exact(l, limit) && Valid(l, limit, length)
    ensures Exact(Hit(l, now, limit, length), limit)
  {
    var n := Hit(l, now, limit, length);
    if l.log != [] {
      assert CountedInWindow(l.log, |l.log| - 1, limit);
    }
    forall i: nat | i < |n.log| ensures CountedInWindow(n.log, i, limit) {
      if i < |l.log| {
        assert CountedInWindow(l.log, i, limit);
      }
    }
  }

  predicate NonDecreasing(times: seq<int>) {
    forall i, j :: 0 <= i < j < |times| ==> times[i] <= times[j]
  }

  /** The limiter after calls at these times. */
  function Calls(times: seq<int>, limit: int, length: int): Limiter {
    if times == [] then Fresh
    else Hit(Calls(times[..|times| - 1], limit, length), times[|times| - 1], limit, length)
  }

  lemma {:induction false} CallsValid(times: seq<int>, limit: int, length: int)
    requires NonDecreasing(times) && limit >= 1 && length >= 1
    ensures var l := Calls(times, limit, length);
            && Valid(l, limit, length) && |l.log| == |times|
            && forall i :: 0 <= i < |times| ==> l.log[i].at == times[i]
  {
    if times == [] {
      assert forall s :: InWindow(Fresh.log, s) == {};
    } else {
      var prev, now := times[..|times| - 1], times[|times| - 1];
      CallsValid(prev, limit, length);
      var l := Calls(prev, limit, length);
      assert l.log == [] || Last(l).at == prev[|prev| - 1] <= now;
      HitKeepsValid(l, now, limit, length);
    }
  }

  /** So it is after every sequence of calls. */
  lemma {:induction false} CallsAreExact(times: seq<int>, limit: int, length: int)
    requires NonDecreasing(times) && limit >= 1 && length >= 1
    ensures Exact(Calls(times, limit, length), limit)
  {
    if times != [] {
      var init := times[..|times| - 1];
      assert NonDecreasing(init);
      CallsAreExact(init, limit, length);
      CallsValid(init, limit, length);
      HitKeepsExact(Calls(init, limit, length), times[|times| - 1], limit, length);
    }
  }

  /** Three calls less than a window apart cannot belong to three windows. */
  lemma AtMostTwoWindows(log: seq<Call>, length: int, lo: int, i: nat, j: nat, k: nat)
    requires LogValid(log, length) && length >= 1 && i < |log| && j < |log| && k < |log|
    requires lo <= log[i].at < lo + length && lo <= log[j].at < lo + length && lo <= log[k].at < lo + length
    requires log[i].start < log[j].start
    ensures log[k].start == log[i].start || log[k].start == log[j].start
    ensures log[i].start < lo
  {
    assert Placed(log, i, length) && Placed(log, j, length) && Placed(log, k, length);
  }

  /**
   In any half-open interval of one window length fewer than twice the limit are
   admitted. The first call of the earlier window always falls outside.
   */
  lemma FewerThanTwiceTheLimit(l: Limiter, limit: int, length: int, lo: int)
    requires Valid(l, limit, length) && limit >= 1 && length >= 1
    ensures |AdmittedIn(l.log, lo, lo + length)| <= 2 * limit - 1
  {
    var s := AdmittedIn(l.log, lo, lo + length);
    if i, j :| i in s && j in s && l.log[i].start < l.log[j].start {
      TwoWindowCount(l, limit, length, lo, i, j);
    } else if i :| i in s {
      assert |InWindow(l.log, l.log[i].start)| <= limit;
      Smaller(s, InWindow(l.log, l.log[i].start));
    }
  }

  lemma TwoWindowCount(l: Limiter, limit: int, length: int, lo: int, i: nat, j: nat)
    requires Valid(l, limit, length) && limit >= 1 && length >= 1
    requires var s := AdmittedIn(l.log, lo, lo + length); i in s && j in s
    requires l.log[i].start < l.log[j].start
    ensures |AdmittedIn(l.log, lo, lo + length)| <= 2 * limit - 1
  {
    var a, b, f := InWindow(l.log, l.log[i].start), InWindow(l.log, l.log[j].start), l.log[i].first;
    assert |a| <= limit && |b| <= limit;
    AtMostTwoWindows(l.log, length, lo, i, j, j);
    assert Placed(l.log, i, length) && f in a;
    var early := a - {f};
    forall k | k in AdmittedIn(l.log, lo, lo + length) ensures k in early + b {
      AtMostTwoWindows(l.log, length, lo, i, j, k);
    }
    Smaller(AdmittedIn(l.log, lo, lo + length), early + b);
    assert early + b == early + (b - early) && |early + b| == |early| + |b - early|;
    Smaller(b - early, b);
  }

  /** The bound for every sequence of calls whatever. */
  lemma RateBound(times: seq<int>, limit: int, length: int, lo: int)
    requires NonDecreasing(times) && limit >= 1 && length >= 1
    ensures |AdmittedIn(Calls(times, limit, length).log, lo, lo + length)| <= 2 * limit - 1
  {
    CallsValid(times, limit, length);
    FewerThanTwiceTheLimit(Calls(times, limit, length), limit, length, lo);
  }

  /** One call opens a window, the rest of its permits go at the end, the next window follows at once. */
  function Burst(limit: nat, length: int, n: nat): seq<int> {
    seq(n, i => if i == 0 then 0 else if i < limit then length - 1 else length)
  }

  lemma {:induction false} BurstIsAdmitted(limit: nat, length: int, n: nat)
    requires 1 <= limit && length >= 2 && 1 <= n <= 2 * limit
    ensures var l := Calls(Burst(limit, length, n), limit, length);
            && |l.log| == n && (forall i :: 0 <= i < n ==> l.log[i].admitted && l.log[i].at == Burst(limit, length, n)[i])
            && l.window == Some(if n <= limit then Window(n, length) else Window(n - limit, 2 * length))
  {
    var times := Burst(limit, length, n);
    assert times[..n - 1] == Burst(limit, length, n - 1);
    if n > 1 {
      BurstIsAdmitted(limit, length, n - 1);
    }
  }

  /** The bound is reached, for every limit and every window. */
  lemma RateBoundIsReached(limit: nat, length: int)
    requires limit >= 1 && length >= 2
    ensures NonDecreasing(Burst(limit, length, 2 * limit))
    ensures |AdmittedIn(Calls(Burst(limit, length, 2 * limit), limit, length).log, 1, 1 + length)| == 2 * limit - 1
  {
    BurstIsAdmitted(limit, length, 2 * limit);
    var times := Burst(limit, length, 2 * limit);
    BurstPermits(limit, length, Calls(times, limit, length).log);
  }

  /** All calls of the burst but the first fall into one stretch of a window's length. */
  lemma BurstPermits(limit: nat, length: int, log: seq<Call>)
    requires limit >= 1 && length >= 2 && |log| == 2 * limit
    requires forall i :: 0 <= i < 2 * limit ==> log[i].admitted && log[i].at == Burst(limit, length, 2 * limit)[i]
    ensures |AdmittedIn(log, 1, 1 + length)| == 2 * limit - 1
  {
    assert AdmittedIn(log, 1, 1 + length) == Range(1, 2 * limit);
  }
}
