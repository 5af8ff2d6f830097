/**
 The fixed-window limiter over Redis counters. INCR and EXPIRE are separate steps, so other calls may
 come between them and a caller may die before its EXPIRE; the clock read and the INCR are one step.
 */
module RateLimit {
  import opened Wrappers
  import opened Arithmetic
  import opened Counting

  /** A Redis counter and when it expires, in seconds; a counter without EXPIRE stays. */
  datatype Counter = Counter(count: nat, expires: Option<int>)

  /** A call that got its count: when it was made, in which window, and whether it passed. */
  datatype Call = Call(at: nat, window: nat, passed: bool)

  datatype Limit = Limit(limit: int, windowSeconds: nat)

  datatype Event = Wait(seconds: nat) | Incr | Expire(window: nat)

  /** `due` holds the windows whose first caller has yet to send EXPIRE. */
  datatype Store = Store(now: nat, counters: map<nat, Counter>, due: set<nat>, calls: seq<Call>)
  {
    /** What INCR finds: nothing if the counter is missing or has expired. */
    function CountOf(w: nat): nat {
      if w in counters && (counters[w].expires.None? || now < counters[w].expires.value) then counters[w].count else 0
    }
  }

  function WindowOf(opt: Limit, now: nat): nat
    requires opt.windowSeconds > 0
  {
    now / opt.windowSeconds
  }

  /** Line 70. */
  function RetryAfter(opt: Limit, now: nat): int
    requires opt.windowSeconds > 0
  {
    opt.windowSeconds - now % opt.windowSeconds
  }

  /** Lines 60-69: INCR of the window's counter, and the verdict for the caller. */
  function DoIncr(opt: Limit, s: Store): Store
    requires opt.windowSeconds > 0
  {
    var w := WindowOf(opt, s.now);
    var count := s.CountOf(w) + 1;
    var expires := if count > 1 then s.counters[w].expires else None;
    s.(counters := s.counters[w := Counter(count, expires)],
       due := if count == 1 then s.due + {w} else s.due,
       calls := s.calls + [Call(s.now, w, count <= opt.limit)])
  }

  /** Line 66; an EXPIRE for a counter that is gone does nothing. */
  function DoExpire(opt: Limit, s: Store, w: nat): Store {
    if w !in s.due then s
    else if s.CountOf(w) == 0 then s.(due := s.due - {w})
    else s.(due := s.due - {w}, counters := s.counters[w := s.counters[w].(expires := Some(s.now + opt.windowSeconds))])
  }

  function Step(opt: Limit, s: Store, e: Event): Store
    requires opt.windowSeconds > 0
  {
    match e
    case Wait(d) => s.(now := s.now + d)
    case Incr => DoIncr(opt, s)
    case Expire(w) => DoExpire(opt, s, w)
  }

  const EMPTY := Store(0, map[], {}, [])

  function Run(opt: Limit, es: seq<Event>): Store
    requires opt.windowSeconds > 0
  {
    if es == [] then EMPTY else Step(opt, Run(opt, es[..|es| - 1]), es[|es| - 1])
  }

  function InWindow(w: nat): Call -> bool { (c: Call) => c.window == w }
  function PassedIn(w: nat): Call -> bool { (c: Call) => c.window == w && c.passed }
  function PassedBetween(from: nat, to: nat): Call -> bool { (c: Call) => from <= c.at < to && c.passed }

  function Max(a: int, b: int): int { if a < b then b else a }
  function Min(a: int, b: int): int { if a < b then a else b }

  // ------------------------------------------------------------ invariant

  /** The counter of a window counts its calls as long as that window lasts; its expiry lies beyond. */
  predicate CounterTrue(opt: Limit, s: Store, w: nat)
    requires opt.windowSeconds > 0
  {
    && (w in s.counters && s.counters[w].expires.Some? ==> s.counters[w].expires.value >= (w + 1) * opt.windowSeconds)
    && (w >= WindowOf(opt, s.now) ==>
          (if w in s.counters then s.counters[w].count else 0) == Count(s.calls, InWindow(w)))
    && Count(s.calls, PassedIn(w)) == Min(Count(s.calls, InWindow(w)), Max(opt.limit, 0))
  }

  /** A call passed exactly if fewer than `limit` calls of its window came before it. */
  predicate RightVerdict(opt: Limit, calls: seq<Call>, i: nat)
    requires i < |calls|
  {
    calls[i].passed <==> Count(calls[..i], InWindow(calls[i].window)) < opt.limit
  }

  ghost predicate CallsTrue(opt: Limit, s: Store)
    requires opt.windowSeconds > 0
  {
    && (forall i :: 0 <= i < |s.calls| ==> s.calls[i].at <= s.now && s.calls[i].window == WindowOf(opt, s.calls[i].at))
    && (forall i :: 0 <= i < |s.calls| ==> RightVerdict(opt, s.calls, i))
    && (forall w :: w in s.counters ==> w <= WindowOf(opt, s.now) && s.counters[w].count > 0)
    && (forall w :: w in s.due ==> w <= WindowOf(opt, s.now))
  }

  lemma WindowEnd(opt: Limit, now: nat)
    requires opt.windowSeconds > 0
    ensures now < (WindowOf(opt, now) + 1) * opt.windowSeconds
    ensures WindowOf(opt, now) * opt.windowSeconds <= now
  {
  }

  lemma WindowsGrow(opt: Limit, a: nat, b: nat)
    requires opt.windowSeconds > 0 && a <= b
    ensures WindowOf(opt, a) <= WindowOf(opt, b)
  {
    var n, u, v := opt.windowSeconds, WindowOf(opt, a), WindowOf(opt, b);
    WindowEnd(opt, a);
    WindowEnd(opt, b);
    hide WindowOf;
    if v < u { Multiples(v + 1, u, n); }
  }

  lemma Multiples(a: nat, b: nat, n: nat)
    requires a <= b
    ensures a * n <= b * n
  {
  }

  /** While its window lasts, a counter has not expired. */
  lemma NotYetExpired(opt: Limit, s: Store, w: nat)
    requires opt.windowSeconds > 0 && CounterTrue(opt, s, w) && w == WindowOf(opt, s.now)
    ensures s.CountOf(w) == if w in s.counters then s.counters[w].count else 0
  {
    WindowEnd(opt, s.now);
  }

  lemma VerdictsStay(opt: Limit, calls: seq<Call>, call: Call)
    requires forall i :: 0 <= i < |calls| ==> RightVerdict(opt, calls, i)
    requires call.passed <==> Count(calls, InWindow(call.window)) < opt.limit
    ensures forall i :: 0 <= i < |calls| + 1 ==> RightVerdict(opt, calls + [call], i)
  {
    forall i | 0 <= i < |calls| + 1 ensures RightVerdict(opt, calls + [call], i) {
      assert (calls + [call])[..i] == calls[..i];
      assert i == |calls| ==> calls[..i] == calls;
      assert i < |calls| ==> RightVerdict(opt, calls, i);
    }
  }

  lemma IncrKeepsCalls(opt: Limit, s: Store)
    requires opt.windowSeconds > 0 && CallsTrue(opt, s) && CounterTrue(opt, s, WindowOf(opt, s.now))
    ensures CallsTrue(opt, DoIncr(opt, s))
  {
    hide RightVerdict, Count, WindowOf;
    var now := WindowOf(opt, s.now);
    NotYetExpired(opt, s, now);
    VerdictsStay(opt, s.calls, Call(s.now, now, s.CountOf(now) + 1 <= opt.limit));
  }

  lemma IncrKeepsCounter(opt: Limit, s: Store, w: nat)
    requires opt.windowSeconds > 0 && CallsTrue(opt, s) && CounterTrue(opt, s, w)
        && CounterTrue(opt, s, WindowOf(opt, s.now))
    ensures CounterTrue(opt, DoIncr(opt, s), w)
  {
    hide RightVerdict, Count, WindowOf;
    var now := WindowOf(opt, s.now);
    NotYetExpired(opt, s, now);
    var call := Call(s.now, now, s.CountOf(now) + 1 <= opt.limit);
    CountAppend(s.calls, call, InWindow(w));
    CountAppend(s.calls, call, PassedIn(w));
  }

  lemma ExpireKeeps(opt: Limit, s: Store, e: nat, w: nat)
    requires opt.windowSeconds > 0 && CallsTrue(opt, s) && CounterTrue(opt, s, w)
    ensures CallsTrue(opt, DoExpire(opt, s, e)) && CounterTrue(opt, DoExpire(opt, s, e), w)
  {
    WindowEnd(opt, s.now);
    if w == e && e in s.due {
      assert w <= WindowOf(opt, s.now);
      Multiples(w, WindowOf(opt, s.now), opt.windowSeconds);
      assert (w + 1) * opt.windowSeconds == w * opt.windowSeconds + opt.windowSeconds;
    }
  }

  lemma WaitKeeps(opt: Limit, s: Store, d: nat, w: nat)
    requires opt.windowSeconds > 0 && CallsTrue(opt, s) && CounterTrue(opt, s, w)
    ensures CallsTrue(opt, Step(opt, s, Wait(d))) && CounterTrue(opt, Step(opt, s, Wait(d)), w)
  {
    WindowsGrow(opt, s.now, s.now + d);
  }

  lemma {:induction false} RunKeeps(opt: Limit, es: seq<Event>, w: nat)
    requires opt.windowSeconds > 0
    ensures CallsTrue(opt, Run(opt, es)) && CounterTrue(opt, Run(opt, es), w)
    decreases |es|
  {
    if es != [] {
      var n := |es| - 1;
      var s := Run(opt, es[..n]);
      RunKeeps(opt, es[..n], w);
      match es[n]
      case Wait(d) => WaitKeeps(opt, s, d, w);
      case Incr =>
        RunKeeps(opt, es[..n], WindowOf(opt, s.now));
        IncrKeepsCalls(opt, s);
        IncrKeepsCounter(opt, s, w);
      case Expire(e) => ExpireKeeps(opt, s, e, w);
    }
  }

  // ------------------------------------------------------------ main theorems

  lemma VerdictAt(opt: Limit, calls: seq<Call>, i: nat)
    requires i < |calls| && RightVerdict(opt, calls, i)
    ensures calls[i].passed <==> Count(calls[..i], InWindow(calls[i].window)) < opt.limit
  {
  }

  /** In every window exactly the first `limit` calls pass, or all of them if there are fewer, and so never more. */
  lemma WindowLimit(opt: Limit, es: seq<Event>, w: nat)
    requires opt.windowSeconds > 0
    ensures var calls := Run(opt, es).calls;
            && (forall i :: 0 <= i < |calls| && calls[i].window == w ==>
                  (calls[i].passed <==> Count(calls[..i], InWindow(w)) < opt.limit))
            && Count(calls, PassedIn(w)) == Min(Count(calls, InWindow(w)), Max(opt.limit, 0))
  {
    hide Run, WindowOf, RightVerdict;
    RunKeeps(opt, es, w);
    var calls := Run(opt, es).calls;
    forall i | 0 <= i < |calls| && calls[i].window == w
      ensures calls[i].passed <==> Count(calls[..i], InWindow(w)) < opt.limit
    {
      VerdictAt(opt, calls, i);
    }
  }

  /** A span of one window's length meets at most two windows. */
  lemma {:induction false} SpanMeetsTwoWindows(opt: Limit, calls: seq<Call>, from: nat)
    requires opt.windowSeconds > 0
    requires forall i :: 0 <= i < |calls| ==> calls[i].window == WindowOf(opt, calls[i].at)
    ensures Count(calls, PassedBetween(from, from + opt.windowSeconds))
         <= Count(calls, PassedIn(WindowOf(opt, from))) + Count(calls, PassedIn(WindowOf(opt, from) + 1))
  {
    if calls != [] {
      var last := calls[|calls| - 1];
      SpanMeetsTwoWindows(opt, calls[..|calls| - 1], from);
      if PassedBetween(from, from + opt.windowSeconds)(last) {
        WindowsGrow(opt, from, last.at);
        WindowsGrow(opt, last.at, from + opt.windowSeconds);
        NextWindow(opt, from);
      }
    }
  }

  lemma NextWindow(opt: Limit, now: nat)
    requires opt.windowSeconds > 0
    ensures WindowOf(opt, now + opt.windowSeconds) == WindowOf(opt, now) + 1
  {
    var n, q, r := opt.windowSeconds, now / opt.windowSeconds, now % opt.windowSeconds;
    assert now + n == (q + 1) * n + r;
    DivisionIsUnique(now + n, n, q + 1, r);
  }

  /** At most twice the limit passes in any span as long as a window, wherever it starts. */
  lemma SpanLimit(opt: Limit, es: seq<Event>, from: nat)
    requires opt.windowSeconds > 0
    ensures Count(Run(opt, es).calls, PassedBetween(from, from + opt.windowSeconds)) <= 2 * Max(opt.limit, 0)
  {
    RunKeeps(opt, es, WindowOf(opt, from));
    RunKeeps(opt, es, WindowOf(opt, from) + 1);
    SpanMeetsTwoWindows(opt, Run(opt, es).calls, from);
  }

  /**
   A refused caller is told to come back within 1 to windowSeconds seconds, exactly at the start of the
   next window.
   */
  lemma RetryAfterIsNextWindow(opt: Limit, now: nat)
    requires opt.windowSeconds > 0
    ensures 1 <= RetryAfter(opt, now) <= opt.windowSeconds
    ensures now + RetryAfter(opt, now) == (WindowOf(opt, now) + 1) * opt.windowSeconds
    ensures WindowOf(opt, now + RetryAfter(opt, now)) == WindowOf(opt, now) + 1
  {
    var n := opt.windowSeconds;
    assert now == (now / n) * n + now % n;
    assert now + RetryAfter(opt, now) == (now / n + 1) * n;
    DivisionIsUnique(now + RetryAfter(opt, now), n, now / n + 1, 0);
  }

  /** A counter never expires inside its own window, so its window's calls are never counted anew. */
  lemma CounterOutlivesWindow(opt: Limit, es: seq<Event>)
    requires opt.windowSeconds > 0
    ensures var s := Run(opt, es); s.CountOf(WindowOf(opt, s.now)) == Count(s.calls, InWindow(WindowOf(opt, s.now)))
  {
    var s := Run(opt, es);
    RunKeeps(opt, es, WindowOf(opt, s.now));
    NotYetExpired(opt, s, WindowOf(opt, s.now));
  }

  /** The first caller's EXPIRE ends the counter one window's length later, and not before. */
  lemma ExpireEndsCounter(opt: Limit, s: Store, w: nat, seconds: nat)
    requires opt.windowSeconds > 0 && w in s.due && s.CountOf(w) > 0
    ensures Step(opt, Step(opt, s, Expire(w)), Wait(seconds)).CountOf(w)
        == if seconds < opt.windowSeconds then s.CountOf(w) else 0
  {
  }

  /** A counter that has no EXPIRE yet never ends by itself. */
  lemma WithoutExpireItStays(opt: Limit, s: Store, w: nat, seconds: nat)
    requires opt.windowSeconds > 0 && w in s.counters && s.counters[w].expires.None?
    ensures Step(opt, s, Wait(seconds)).CountOf(w) == s.CountOf(w)
  {
  }

  // ------------------------------------------------------------ the object

  datatype Verdict = Allowed | Refused(retryAfter: int)

  /** enforceRateLimit over its shared Redis store; without a Redis URL nothing is limited. */
  class RateLimiter {
    const opt: Limit
    const connected: bool
    var store: Store
    ghost var trace: seq<Event>

    /** The store is where some run of the limiter led it. */
    ghost predicate Valid()
      reads this
    {
      opt.windowSeconds > 0 && store == Run(opt, trace)
    }

    constructor (opt: Limit, connected: bool)
      requires opt.windowSeconds > 0
      ensures Valid() && trace == [] && this.opt == opt && this.connected == connected
    {
      this.opt := opt;
      this.connected := connected;
      store := EMPTY;
      trace := [];
    }

    method Do(e: Event)
      requires Valid()
      modifies this
      ensures Valid() && trace == old(trace) + [e] && store == Step(opt, old(store), e)
    {
      assert (trace + [e])[..|trace + [e]| - 1] == trace;
      store := Step(opt, store, e);
      trace := trace + [e];
    }

    /** Time passes and other callers come between this caller's steps. */
    method Others(es: seq<Event>)
      requires Valid()
      modifies this
      ensures Valid() && trace == old(trace) + es
    {
      for i := 0 to |es|
        invariant Valid() && trace == old(trace) + es[..i]
      {
        Do(es[i]);
        assert es[..i + 1] == es[..i] + [es[i]];
      }
      assert es[..|es|] == es;
    }

    /**
     Lines 52-73; `between` is what happens between INCR and EXPIRE. The caller passes exactly if it is
     among the first `limit` callers of the current window.
     */
    method Enforce(between: seq<Event>) returns (v: Verdict)
      requires Valid()
      modifies this
      ensures Valid()
      ensures !connected ==> v == Allowed && trace == old(trace)
      ensures connected ==>
                var w := WindowOf(opt, old(store.now));
                var earlier := Count(old(store.calls), InWindow(w));
                && v == (if earlier < opt.limit then Allowed else Refused(RetryAfter(opt, old(store.now))))
                && trace == old(trace) + [Incr] + (if earlier == 0 then between + [Expire(w)] else [])
    {
      if !connected {
        return Allowed;
      }
      CounterOutlivesWindow(opt, trace);
      var now := store.now;
      var windowId := now / opt.windowSeconds;
      var count := store.CountOf(windowId) + 1;
      Do(Incr);
      if count == 1 {
        Others(between);
        Do(Expire(windowId));
      }
      v := if count > opt.limit then Refused(opt.windowSeconds - now % opt.windowSeconds) else Allowed;
    }
  }
}
