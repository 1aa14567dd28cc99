/** The global cap on notifications: one rolling window of admission times. */
module RateLimit {
  const SECOND: int := 1_000_000_000

  /** The times after the cutoff, in order. */
  function Kept(times: seq<int>, cutoff: int): (r: seq<int>)
    ensures |r| <= |times|
  {
    if times == [] then []
    else
      var head, t := Kept(times[..|times| - 1], cutoff), times[|times| - 1];
      if t > cutoff then head + [t] else head
  }

  predicate AtMost(times: seq<int>, hi: int) {
    forall i :: 0 <= i < |times| ==> times[i] <= hi
  }

  predicate Ordered(times: seq<int>) {
    forall i, j :: 0 <= i < j < |times| ==> times[i] <= times[j]
  }

  /** How many of the times lie in (lo, hi]. */
  function Within(times: seq<int>, lo: int, hi: int): (c: nat)
    ensures c <= |times|
  {
    if times == [] then 0
    else Within(times[..|times| - 1], lo, hi) + if lo < times[|times| - 1] <= hi then 1 else 0
  }

  /** Every admission of a run of calls to a fresh limiter, in order. */
  function Admissions(cap: int, window: int, calls: seq<int>): (a: seq<int>)
    ensures |a| <= |calls|
  {
    if calls == [] then []
    else
      var before, now := Admissions(cap, window, calls[..|calls| - 1]), calls[|calls| - 1];
      if |Kept(before, now - window)| < cap then before + [now] else before
  }

  class RateLimiter {
    const cap: int
    const window: int
    var times: seq<int>
    /** Every call so far: the history the window is measured against. */
    ghost var calls: seq<int>

    ghost predicate Valid()
      reads this
    {
      && Ordered(calls) && window > 0
      && (cap >= 1 ==>
            times == if calls == [] then [] else Kept(Admissions(cap, window, calls), calls[|calls| - 1] - window))
    }

    constructor (cap: int, window: int)
      requires window > 0
      ensures Valid() && calls == [] && this.cap == cap && this.window == window
    {
      this.cap, this.window, times, calls := cap, window, [], [];
    }

    /**
     * Allow: admits a call if fewer than cap admissions lie in the window that ends now, and otherwise says how long
     * until the oldest of them leaves it, but at least a second. A cap that is not positive admits everything.
     */
    method Allow(now: int) returns (ok: bool, retry: int)
      requires Valid() && (calls != [] ==> calls[|calls| - 1] <= now)
      modifies `times, `calls
      ensures Valid() && calls == old(calls) + [now]
      ensures cap <= 0 ==> ok && retry == 0 && times == old(times)
      ensures cap >= 1 ==> (ok <==> Within(Admissions(cap, window, old(calls)), now - window, now) < cap)
      ensures cap >= 1 ==>
                Admissions(cap, window, calls) == Admissions(cap, window, old(calls)) + if ok then [now] else []
      ensures var a := Admissions(cap, window, old(calls));
              cap >= 1 ==> (ok <==> |a| < cap || a[|a| - cap] <= now - window)
      ensures ok ==> retry == 0
      ensures !ok ==>
                var a := Admissions(cap, window, old(calls));
                && |times| >= cap && |a| >= cap && times[0] == a[|a| - cap]
                && retry == if a[|a| - cap] + window - now < 1_000_000_000 then 1_000_000_000
                            else a[|a| - cap] + window - now
    {
      hide Kept, Within, Admissions;
      AdmissionsStep(cap, window, calls, now);
      calls := calls + [now];
      if cap <= 0 {
        return true, 0;
      }
      var cutoff := now - window;
      times := Keep(times, cutoff);
      AsIfAll(cap, window, old(calls), now, old(times));
      Room(cap, window, old(calls), now);
      if |times| >= cap {
        retry := times[0] - cutoff;
        if retry < SECOND { retry := SECOND; }
        return false, retry;
      }
      KeptLast(Admissions(cap, window, old(calls)), now, cutoff);
      times := times + [now];
      return true, 0;
    }
  }

  /** Of times in order, those after the cutoff are the last ones. */
  lemma {:induction false} KeptIsTail(times: seq<int>, cutoff: int) returns (k: nat)
    requires Ordered(times)
    ensures k <= |times| && Kept(times, cutoff) == times[k..]
    ensures (forall i :: 0 <= i < k ==> times[i] <= cutoff) && forall i :: k <= i < |times| ==> times[i] > cutoff
  {
    if times == [] {
      k := 0;
    } else {
      var n := |times| - 1;
      k := KeptIsTail(times[..n], cutoff);
      assert forall i :: 0 <= i < n ==> times[..n][i] == times[i];
      if times[n] > cutoff {
        assert times[..n][k..] + [times[n]] == times[k..];
      } else {
        assert times[..n][k..] == [];
        k := n + 1;
      }
    }
  }

  /** There is room exactly if the cap-th last admission has left the window. */
  lemma Room(cap: int, window: int, calls: seq<int>, now: int)
    requires window > 0 && Ordered(calls) && (calls != [] ==> calls[|calls| - 1] <= now)
    ensures var a := Admissions(cap, window, calls);
            var kept := Kept(a, now - window);
            cap >= 1 ==>
              && (|kept| < cap <==> |a| < cap || a[|a| - cap] <= now - window)
              && (|kept| >= cap ==> |a| >= cap && kept[0] == a[|a| - cap])
  {
    hide Kept, Within, Admissions;
    if cap >= 1 {
      var a := Admissions(cap, window, calls);
      AdmittedByNow(cap, window, calls, now);
      SlidingWindow(cap, window, calls, now);
      AllWithin(a, now - window, now);
      var k := KeptIsTail(a, now - window);
    }
  }

  /** A run in the limiter's own terms: any cap + 1 admissions in a row take at least the window. */
  lemma {:induction false} Spaced(cap: int, window: int, calls: seq<int>, i: nat)
    requires cap >= 1 && window > 0 && Ordered(calls) && i + cap < |Admissions(cap, window, calls)|
    ensures var a := Admissions(cap, window, calls); a[i + cap] - a[i] >= window
    decreases |calls|
  {
    hide Kept, Within, Admissions, Ordered;
    NoAdmissions(cap, window);
    var earlier, now := LastCall(calls);
    AdmissionsStep(cap, window, earlier, now);
    Room(cap, window, earlier, now);
    if i + cap < |Admissions(cap, window, earlier)| { Spaced(cap, window, earlier, i); }
  }

  lemma NoAdmissions(cap: int, window: int)
    ensures Admissions(cap, window, []) == []
  {
  }

  /** The filtering loop of Allow. */
  method Keep(times: seq<int>, cutoff: int) returns (keep: seq<int>)
    ensures keep == Kept(times, cutoff)
  {
    keep := [];
    for i := 0 to |times|
      invariant keep == Kept(times[..i], cutoff)
    {
      assert times[..i + 1][..i] == times[..i];
      if times[i] > cutoff { keep := keep + [times[i]]; }
    }
    assert times[..|times|] == times;
  }

  lemma AdmissionsStep(cap: int, window: int, calls: seq<int>, now: int)
    ensures var before := Admissions(cap, window, calls);
            Admissions(cap, window, calls + [now]) ==
              if |Kept(before, now - window)| < cap then before + [now] else before
  {
    hide Kept;
    assert (calls + [now])[..|calls|] == calls;
  }

  /** What a limiter holds is as good as the whole history. */
  lemma AsIfAll(cap: int, window: int, calls: seq<int>, now: int, times: seq<int>)
    requires Ordered(calls) && (calls != [] ==> calls[|calls| - 1] <= now)
    requires times == if calls == [] then [] else Kept(Admissions(cap, window, calls), calls[|calls| - 1] - window)
    ensures Kept(times, now - window) == Kept(Admissions(cap, window, calls), now - window)
    ensures |Kept(times, now - window)| == Within(Admissions(cap, window, calls), now - window, now)
  {
    hide Kept, Within, Admissions;
    AdmittedByNow(cap, window, calls, now);
    AllWithin(Admissions(cap, window, calls), now - window, now);
    if calls != [] {
      KeptTwice(Admissions(cap, window, calls), calls[|calls| - 1] - window, now - window);
    }
  }

  /** Filtering by an earlier cutoff first makes no difference. */
  lemma {:induction false} KeptTwice(times: seq<int>, earlier: int, cutoff: int)
    requires earlier <= cutoff
    ensures Kept(Kept(times, earlier), cutoff) == Kept(times, cutoff)
  {
    if times != [] {
      var n := |times| - 1;
      KeptTwice(times[..n], earlier, cutoff);
      KeptLast(Kept(times[..n], earlier), times[n], cutoff);
    }
  }

  lemma KeptLast(times: seq<int>, t: int, cutoff: int)
    ensures Kept(times + [t], cutoff) == Kept(times, cutoff) + if t > cutoff then [t] else []
  {
    assert (times + [t])[..|times|] == times;
  }

  /** No admission is later than the last call. */
  lemma {:induction false} AdmittedByNow(cap: int, window: int, calls: seq<int>, now: int)
    requires Ordered(calls) && (calls != [] ==> calls[|calls| - 1] <= now)
    ensures AtMost(Admissions(cap, window, calls), now)
    ensures Ordered(Admissions(cap, window, calls))
  {
    if calls != [] {
      var n := |calls| - 1;
      AdmittedByNow(cap, window, calls[..n], calls[n]);
      assert AtMost(Admissions(cap, window, calls[..n]), calls[n]);
    }
  }

  lemma {:induction false} AllWithin(times: seq<int>, lo: int, hi: int)
    requires AtMost(times, hi)
    ensures Within(times, lo, hi) == |Kept(times, lo)|
  {
    if times != [] {
      AllWithin(times[..|times| - 1], lo, hi);
    }
  }

  lemma {:induction false} WithinLast(times: seq<int>, t: int, lo: int, hi: int)
    ensures Within(times + [t], lo, hi) == Within(times, lo, hi) + if lo < t <= hi then 1 else 0
  {
    assert (times + [t])[..|times|] == times;
  }

  lemma {:induction false} WithinShrinks(times: seq<int>, lo: int, hi: int, lo': int, hi': int)
    requires lo <= lo' && hi' <= hi
    ensures Within(times, lo', hi') <= Within(times, lo, hi)
  {
    if times != [] { WithinShrinks(times[..|times| - 1], lo, hi, lo', hi'); }
  }

  /** An admission made while the window has room overfills no interval. */
  lemma OneAdmission(before: seq<int>, cap: int, window: int, now: int, t: int)
    requires window > 0 && AtMost(before, now) && Within(before, t - window, t) <= cap
    requires |Kept(before, now - window)| < cap
    ensures Within(before + [now], t - window, t) <= cap
  {
    hide Kept, Within;
    WithinLast(before, now, t - window, t);
    if t >= now {
      WithinShrinks(before, now - window, t, t - window, t);
      hide AtMost;
      Later(before, now, t);
      AllWithin(before, now - window, t);
    }
  }

  lemma Later(times: seq<int>, now: int, t: int)
    requires AtMost(times, now) && now <= t
    ensures AtMost(times, t)
  {
  }

  /** The sliding window: over any calls in time order, every interval (t - window, t] holds at most cap admissions. */
  lemma {:induction false} SlidingWindow(cap: int, window: int, calls: seq<int>, t: int)
    requires cap >= 1 && window > 0 && Ordered(calls)
    ensures Within(Admissions(cap, window, calls), t - window, t) <= cap
    decreases |calls|
  {
    hide Kept, Within, Admissions, Ordered, AtMost;
    if calls == [] {
      NoCalls(cap, window, t);
    } else {
      var earlier, now := LastCall(calls);
      SlidingWindow(cap, window, earlier, t);
      AdmittedByNow(cap, window, earlier, now);
      AdmissionsStep(cap, window, earlier, now);
      var before := Admissions(cap, window, earlier);
      if |Kept(before, now - window)| < cap { OneAdmission(before, cap, window, now, t); }
    }
  }

  /** Calls in time order, taken apart at the last. */
  lemma LastCall(calls: seq<int>) returns (earlier: seq<int>, now: int)
    requires calls != [] && Ordered(calls)
    ensures calls == earlier + [now] && |earlier| < |calls| && Ordered(earlier)
    ensures earlier != [] ==> earlier[|earlier| - 1] <= now
  {
    earlier, now := calls[..|calls| - 1], calls[|calls| - 1];
  }

  lemma NoCalls(cap: int, window: int, t: int)
    ensures Within(Admissions(cap, window, []), t - window, t) == 0
  {
  }

  /** The oldest admission in the window is the first to leave it. */
  lemma {:induction false} KeptAfter(times: seq<int>, cutoff: int, later: int)
    requires Ordered(times) && cutoff <= later && Kept(times, cutoff) != []
    ensures later < Kept(times, cutoff)[0] ==> Kept(times, later) == Kept(times, cutoff)
    ensures Kept(times, cutoff)[0] <= later ==> |Kept(times, later)| < |Kept(times, cutoff)|
  {
    var n := |times| - 1;
    var head := times[..n];
    if Kept(head, cutoff) == [] {
      KeptEmpty(head, cutoff, later);
    } else {
      KeptAfter(head, cutoff, later);
      KeptIn(head, cutoff);
      assert Kept(head, cutoff)[0] in head;
    }
  }

  lemma {:induction false} KeptEmpty(times: seq<int>, cutoff: int, later: int)
    requires cutoff <= later && Kept(times, cutoff) == []
    ensures Kept(times, later) == []
  {
    if times != [] { KeptEmpty(times[..|times| - 1], cutoff, later); }
  }

  lemma {:induction false} KeptIn(times: seq<int>, cutoff: int)
    ensures forall t :: t in Kept(times, cutoff) ==> t in times && t > cutoff
  {
    if times != [] { KeptIn(times[..|times| - 1], cutoff); }
  }

  /**
   * Retry-After is exact: when a call is rejected and no call in between is admitted, a call at or after now + retry is
   * admitted, and an earlier one is not, unless the wait was raised to one second.
   */
  lemma RetryExact(cap: int, window: int, calls: seq<int>, now: int, between: seq<int>, later: int)
    requires cap >= 1 && window > 0 && Ordered(calls + [now] + between + [later])
    requires var kept := Kept(Admissions(cap, window, calls), now - window); |kept| >= cap
    requires Admissions(cap, window, calls + [now] + between) == Admissions(cap, window, calls)
    ensures var wait := Kept(Admissions(cap, window, calls), now - window)[0] + window - now;
            var retry := if wait < SECOND then SECOND else wait;
            var admitted :=
              |Admissions(cap, window, calls + [now] + between + [later])| > |Admissions(cap, window, calls)|;
            && (later >= now + retry ==> admitted)
            && (admitted && later < now + retry ==> retry == SECOND && wait < SECOND)
  {
    hide Kept, Within, Admissions;
    var a, so := Admissions(cap, window, calls), calls + [now] + between;
    var all := so + [later];
    assert all[|calls|] == now && all[|so|] == later;
    assert calls == all[..|calls|];
    AdmissionsStep(cap, window, so, later);
    AdmittedByNow(cap, window, calls, now);
    SlidingWindow(cap, window, calls, now);
    AllWithin(a, now - window, now);
    KeptAfter(a, now - window, later - window);
  }
}
