/**
 * How often one message can be sent. Every retry waits at least thirty seconds or until the deadline, in memory if the
 * rewrite fails, so one worker makes at most ceil(TTL / 30s) + 1 attempts at a message.
 */
module Attempts {
  import opened Wrappers
  import opened Names
  import opened Machine
  import opened Settlement
  import opened SoleWorker
  import opened Deadline

  const PAUSE: int := 30 * SECOND

  /** The earliest time of attempt number k, counted from zero. */
  function Earliest(s: State, n: Name, k: nat): int {
    Min(n.at + PAUSE * k, Due(s, n))
  }

  /** The attempts made so far are spread out, and the next is not due before its own earliest time. */
  predicate Spread(s: State, n: Name) {
    var ts := s.SendsOf(n);
    && (n !in s.born ==> ts == [])
    && (forall k :: 0 <= k < |ts| ==> Earliest(s, n, k) <= ts[k] <= Due(s, n) && ts[k] <= s.now)
    && (forall k :: 0 < k < |ts| ==> ts[k - 1] < ts[k])
  }

  /** What keeps an attempted message from being sent again too early. */
  predicate Waits(s: State, w: Worker, n: Name) {
    var soonest := Earliest(s, n, |s.SendsOf(n)|);
    || (w.run.Sending? && w.run.name == n)
    || (w.run.Backing? && w.run.name == n)
    || (w.run.Finishing? && w.run.name == n)
    || (n in w.hold && soonest <= w.hold[n])
    || (w.cancelled && (w.run.Clearing? || w.run.Stopped?))
  }

  predicate Paced(s: State, w: Worker, n: Name) {
    && Spread(s, n)
    && (n in s.disk && s.SendsOf(n) != [] ==> Waits(s, w, n))
    && (w.run.Picked? && w.run.name == n ==> Earliest(s, n, |s.SendsOf(n)|) <= s.now)
    && (w.run.Sending? && w.run.name == n ==> s.SendsOf(n) != [])
    && (w.run.Backing? && w.run.name == n ==> Earliest(s, n, |s.SendsOf(n)|) <= w.run.item.notBefore)
  }

  /** The clock has moved since the message was last sent. */
  predicate Advancing(s: State, e: Event) {
    e == Send(0) && Me(s).run.Picked? && s.SendsOf(Me(s).run.name) != [] ==>
      s.SendsOf(Me(s).run.name)[|s.SendsOf(Me(s).run.name)| - 1] < s.now
  }

  /** A failed attempt puts the next one off by at least the pause. */
  lemma PostponedEnough(item: Item, v: Verdict, now: int)
    requires v.RateLimited? || v.Retryable?
    ensures now + PAUSE <= Postponed(item, v, now).notBefore
    ensures Postponed(item, v, now).enqueuedAt == item.enqueuedAt
  {
  }

  lemma NextEarliest(s: State, n: Name)
    requires Spread(s, n) && s.SendsOf(n) != []
    ensures Earliest(s, n, |s.SendsOf(n)|) <= s.now + PAUSE
  {
    var ts := s.SendsOf(n);
    assert Earliest(s, n, |ts| - 1) <= ts[|ts| - 1];
  }

  /** A message is picked no earlier than its next attempt may be. */
  lemma PacedPick(s: State, w: Worker, n: Name)
    requires OnTime(s) && Timely(s, w) && Paced(s, w, n) && Worked(s, w, Pick).Some?
    ensures Paced(s, Worked(s, w, Pick).value, n)
  {
    var v := Worked(s, w, Pick).value;
    assert v.hold == w.hold && InScan(w.run) && w.run.at <= s.now;
    assert n in s.disk && s.SendsOf(n) != [] ==> n in w.hold && Earliest(s, n, |s.SendsOf(n)|) <= w.hold[n];
    assert n in s.disk && s.SendsOf(n) != [] ==> Waits(s, v, n);
    if v.run.name == n {
      if s.SendsOf(n) == [] {
        assert Wakes(s, n);
        assert Earliest(s, n, 0) <= n.at;
      } else {
        assert w.hold[n] <= NotBefore(w, n, s.disk[n]) <= w.run.at;
      }
      assert Earliest(s, n, |s.SendsOf(n)|) <= s.now;
    }
  }

  lemma PacedWork(s: State, w: Worker, a: Work, n: Name)
    requires Careful(s, w) && OnTime(s) && Timely(s, w) && Paced(s, w, n) && Worked(s, w, a).Some?
    ensures Paced(s, Worked(s, w, a).value, n)
  {
    if a.Pick? {
      PacedPick(s, w, n);
    } else if a.Answer? {
      PacedAnswer(s, w, a.verdict, n);
    } else {
      hide Postponed, Backoff, Listing, Oldest;
      if s.SendsOf(n) != [] { NextEarliest(s, n); }
    }
  }

  lemma PacedAnswer(s: State, w: Worker, v: Verdict, n: Name)
    requires Careful(s, w) && OnTime(s) && Timely(s, w) && Paced(s, w, n) && Worked(s, w, Answer(v)).Some?
    ensures Paced(s, Worked(s, w, Answer(v)).value, n)
  {
    hide Postponed, Backoff;
    if s.SendsOf(n) != [] { NextEarliest(s, n); }
    if v.RateLimited? || v.Retryable? { PostponedEnough(w.run.item, v, s.now); }
  }

  /** What is known of every state: the invariants of one worker, of the deadlines, and of the attempts at n. */
  ghost predicate Steady(s: State, n: Name) {
    Inv(s) && OnTime(s) && Unstuck(s) && Timely(s, Me(s)) && Paced(s, Me(s), n)
  }

  ghost predicate StaysPaced(s: State, e: Event, n: Name)
    requires Step(s, e).Some?
  {
    Paced(Step(s, e).value, Me(Step(s, e).value), n)
  }

  lemma ActPaced(s: State, e: Event, n: Name)
    requires Steady(s, n) && Step(s, e).Some? && (e.Does? || e.Admits?) && e.w == 0
    ensures StaysPaced(s, e, n)
  {
    hide Worked, Admitted, Oldest, Timely, Waits, Spread;
    var t := Step(s, e).value;
    if e.Does? {
      PacedWork(s, Me(s), e.work, n);
      SameClock(s, t, Me(t), n);
    } else {
      AdmitPaced(s, Me(s), e.admit, n);
      SameClock(s, t, Me(t), n);
    }
  }

  lemma AdmitPaced(s: State, w: Worker, a: Admit, n: Name)
    requires Paced(s, w, n) && Admitted(s, w, a).Some?
    ensures Paced(s, Admitted(s, w, a).value, n)
  {
    hide Oldest;
  }

  /** Pacing of n reads only the options, the sends, the clock, and whether n is on disk and was born. */
  lemma SameClock(s: State, t: State, w: Worker, n: Name)
    requires Paced(s, w, n)
    requires t.opts == s.opts && t.now >= s.now && t.SendsOf(n) == s.SendsOf(n)
    requires n in t.disk ==> n in s.disk
    requires n in t.born <==> n in s.born
    ensures Paced(t, w, n)
  {
    assert forall k: nat :: Earliest(t, n, k) == Earliest(s, n, k);
  }

  lemma SendPaced(s: State, n: Name)
    requires Steady(s, n) && Step(s, Send(0)).Some? && Advancing(s, Send(0))
    ensures StaysPaced(s, Send(0), n)
  {
    var t := Step(s, Send(0)).value;
    assert forall k: nat :: Earliest(t, n, k) == Earliest(s, n, k);
    if Me(s).run.name == n {
      assert t.SendsOf(n) == s.SendsOf(n) + [s.now];
    } else {
      assert t.SendsOf(n) == s.SendsOf(n);
    }
  }

  lemma WritePaced(s: State, e: Event, n: Name)
    requires Steady(s, n) && Step(s, e).Some? && (e == Put(0) || e == Rewrite(0))
    ensures StaysPaced(s, e, n)
  {
    var t := Step(s, e).value;
    assert forall k: nat :: Earliest(t, n, k) == Earliest(s, n, k);
    assert t.SendsOf(n) == s.SendsOf(n);
  }

  /** A goroutine that goes on from an unlink or a settlement forgets no pause. */
  lemma ResumedPaced(t: State, w: Worker, v: Worker, n: Name)
    requires Paced(t, w, n) && Resumes(w, v) && v.run != Unremoved(n)
    requires InHand(w.run) ==> v.run == w.run
    requires w.run.Finishing? && w.run.name == n ==> n !in t.disk || v.run == w.run
    requires w.run.Clearing? || w.run.Stopped? ==> v.run == w.run
    ensures Paced(t, v, n)
  {
    hide Spread;
  }

  lemma SettlerPaced(s: State, e: Event, n: Name)
    requires Steady(s, n) && Step(s, e).Some? && (e.Claim? || e.Settle?) && Local(e) && Reliable(e)
    ensures StaysPaced(s, e, n)
  {
    var t := Step(s, e).value;
    SettlerHarmless(s, e, n);
    FilesStay(s, e, n);
    hide Step, Steady, Resumes, Paced;
    SameClock(s, t, Me(s), n);
    ResumedPaced(t, Me(s), Me(t), n);
  }

  /** What a reliable claim or a settlement may do to the run goroutine, as far as pacing of n goes. */
  predicate Harmless(s: State, t: State, n: Name) {
    && Resumes(Me(s), Me(t)) && t.SendsOf(n) == s.SendsOf(n) && Me(t).run != Unremoved(n)
    && (InHand(Me(s).run) || Me(s).run.Clearing? || Me(s).run.Stopped? ==> Me(t).run == Me(s).run)
    && (Me(s).run.Finishing? && Me(s).run.name == n ==> n !in t.disk || Me(t).run == Me(s).run)
  }

  lemma ClaimHarmless(s: State, x: Settler, u: Unlink, n: Name)
    requires (x == Runner(0) || x == Enqueuer(0)) && Step(s, Claim(x, u)).Some? && !u.Refused?
    requires Careful(s, Me(s)) && Clean(Me(s))
    ensures Harmless(s, Step(s, Claim(x, u)).value, n)
  {
    hide Worked, Admitted, Looked;
  }

  lemma SettleHarmless(s: State, x: Settler, c: bool, n: Name)
    requires (x == Runner(0) || x == Enqueuer(0)) && Step(s, Settle(x, c)).Some? && Clean(Me(s))
    ensures Harmless(s, Step(s, Settle(x, c)).value, n)
  {
    hide Worked, Admitted, Looked;
  }

  lemma SettlerHarmless(s: State, e: Event, n: Name)
    requires Inv(s) && Unstuck(s) && Step(s, e).Some? && (e.Claim? || e.Settle?) && Local(e) && Reliable(e)
    ensures Harmless(s, Step(s, e).value, n)
  {
    hide Step, Careful, Fate, Harmless;
    assert Clean(Me(s));
    if e.Claim? { ClaimHarmless(s, e.settler, e.unlink, n); } else { SettleHarmless(s, e.settler, e.consumed, n); }
  }

  lemma OutsidePaced(s: State, e: Event, n: Name)
    requires Steady(s, n) && Step(s, e).Some? && Local(e) && Reliable(e)
    requires e.Tick? || e.Start? || e.Cancel? || e.Unstick?
    ensures StaysPaced(s, e, n)
  {
    var t := Step(s, e).value;
    assert forall k: nat :: Earliest(t, n, k) == Earliest(s, n, k);
    assert t.SendsOf(n) == s.SendsOf(n);
  }

  lemma PacedStep(s: State, e: Event, n: Name)
    requires Steady(s, n) && Step(s, e).Some? && Local(e) && Reliable(e) && Advancing(s, e)
    ensures StaysPaced(s, e, n)
  {
    hide Step, Steady, StaysPaced, Reliable, Advancing;
    match e {
      case Does(_, _) => ActPaced(s, e, n);
      case Admits(_, _) => ActPaced(s, e, n);
      case Send(_) => SendPaced(s, n);
      case Put(_) => WritePaced(s, e, n);
      case Rewrite(_) => WritePaced(s, e, n);
      case Claim(_, _) => SettlerPaced(s, e, n);
      case Settle(_, _) => SettlerPaced(s, e, n);
      case _ => OutsidePaced(s, e, n);
    }
  }

  lemma SteadyStep(s: State, e: Event, n: Name)
    requires Steady(s, n) && Step(s, e).Some? && Local(e) && Reliable(e) && Advancing(s, e)
    ensures Steady(Step(s, e).value, n)
  {
    PacedStep(s, e, n);
    InvStep(s, e);
    OnTimeStep(s, e);
    UnstuckStep(s, e);
    hide Step, Inv, Unstuck, Timely, Wakes, Paced;
    MyTime(Step(s, e).value);
  }

  lemma MyTime(s: State)
    requires OnTime(s)
    ensures Timely(s, Me(s))
  {
  }

  lemma SteadyStart(s: State, n: Name)
    requires Initial(s) && OnTime(s)
    ensures Steady(s, n)
  {
    InitialInv(s);
    InitialConserved(s);
    MyTime(s);
  }

  lemma {:induction false} SteadyRun(states: seq<State>, events: seq<Event>, i: nat, n: Name)
    requires IsRun(states, events) && Initial(states[0]) && OnTime(states[0]) && i < |states|
    requires forall j :: 0 <= j < |events| ==>
               Local(events[j]) && Reliable(events[j]) && Advancing(states[j], events[j])
    ensures Steady(states[i], n) && states[i].opts == states[0].opts
  {
    hide Step, Steady, Advancing, Local, Reliable, OnTime, Initial;
    if i == 0 {
      SteadyStart(states[0], n);
    } else {
      SteadyRun(states, events, i - 1, n);
      assert Step(states[i - 1], events[i - 1]) == Some(states[i]);
      SteadyStep(states[i - 1], events[i - 1], n);
      SameOptions(states[i - 1], events[i - 1]);
    }
  }

  function CeilDiv(a: nat, b: int): nat
    requires b > 0
  {
    (a + b - 1) / b
  }

  lemma AtMost(ttl: nat, k: nat)
    requires PAUSE * k < ttl
    ensures k < CeilDiv(ttl, PAUSE)
  {
    var c := CeilDiv(ttl, PAUSE);
    assert ttl <= PAUSE * c;
    assert c <= k ==> PAUSE * c <= PAUSE * k;
  }

  /**
   * One worker sends one message at most ceil(TTL / 30s) + 1 times, even if every rewrite fails: over every run in
   * which unlinks succeed and the clock moves between two sends of the message.
   */
  lemma BoundedAttempts(states: seq<State>, events: seq<Event>, i: nat, n: Name)
    requires IsRun(states, events) && Initial(states[0]) && OnTime(states[0]) && i < |states|
    requires states[0].opts.ttl >= 0
    requires forall j :: 0 <= j < |events| ==>
               Local(events[j]) && Reliable(events[j]) && Advancing(states[j], events[j])
    ensures |states[i].SendsOf(n)| <= CeilDiv(states[0].opts.ttl, PAUSE) + 1
  {
    hide Step, Advancing, Local, Reliable, OnTime, Initial;
    SteadyRun(states, events, i, n);
    var s, ts := states[i], states[i].SendsOf(n);
    if |ts| > 1 {
      var k := |ts| - 2;
      assert Earliest(s, n, k) <= ts[k] < ts[k + 1] <= Due(s, n);
      AtMost(s.opts.ttl, k);
    }
  }
}
