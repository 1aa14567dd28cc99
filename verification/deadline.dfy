/**
 * The flat TTL. With any number of workers, sweeps and faults, no not-before, on disk or held in memory, lies past the
 * deadline of its message, and no message past its deadline is sent.
 */
module Deadline {
  import opened Wrappers
  import opened Names
  import opened Machine

  function Due(s: State, n: Name): int {
    n.at + s.opts.ttl
  }

  /** A file as the hub writes it: the age in the name is the item's, and it may be attempted by its deadline. */
  predicate Wakes(s: State, n: Name) {
    && n in s.born && n.at <= s.now && s.born[n] <= s.now
    && (n in s.disk ==> s.disk[n].enqueuedAt == n.at && s.disk[n].notBefore <= Max(Due(s, n), s.born[n]))
  }

  /** The same for what a worker carries in memory. */
  predicate Timely(s: State, w: Worker) {
    && (InHand(w.run) ==> w.run.item.enqueuedAt == w.run.name.at && w.run.name in s.born)
    && (w.run.Rewriting? ==> w.run.item.notBefore <= Due(s, w.run.name))
    && (InScan(w.run) ==> w.run.at <= s.now)
    && (InEnd(w.run) && w.run.outcome == Expired ==> Due(s, w.run.name) < s.now)
    && (w.admission.Stamped? ==> w.admission.name.at <= s.now)
    && forall n :: n in w.hold ==> w.hold[n] <= Due(s, n)
  }

  /** A sweep takes a file as expired only after its deadline. */
  predicate Patient(s: State, y: Sweep) {
    !y.Sweeping? && y.outcome == Expired ==> Due(s, y.name) < s.now
  }

  predicate OnTime(s: State) {
    && (forall n :: n in s.disk ==> n in s.born)
    && (forall n :: n in s.born ==> Wakes(s, n))
    && (forall w :: w in s.workers ==> Timely(s, s.workers[w]))
    && (forall x :: x in s.sweeps ==> Patient(s, s.sweeps[x]))
  }

  lemma TimelyWork(s: State, w: Worker, a: Work)
    requires OnTime(s) && Timely(s, w) && Worked(s, w, a).Some?
    ensures Timely(s, Worked(s, w, a).value)
  {
    hide Listing, Backoff;
    if a.Pick? && Worked(s, w, a).Some? { assert Wakes(s, w.run.todo[0]); }
  }

  lemma TimelyAdmit(s: State, w: Worker, a: Admit)
    requires Timely(s, w) && Admitted(s, w, a).Some?
    ensures Timely(s, Admitted(s, w, a).value)
  {
    hide Oldest;
  }

  /** Nothing but a put or a rewrite changes what a file says; only a put makes one. */
  lemma FilesStay(s: State, e: Event, n: Name)
    requires Step(s, e).Some? && !e.Put? && !e.Rewrite?
    ensures Step(s, e).value.born == s.born && Step(s, e).value.opts == s.opts
    ensures Step(s, e).value.now >= s.now
    ensures n in Step(s, e).value.disk ==> n in s.disk && Step(s, e).value.disk[n] == s.disk[n]
  {
    hide Worked, Admitted, Looked, Target, Owed, Advanced, Released;
  }

  lemma WritesOnTime(s: State, e: Event, n: Name)
    requires OnTime(s) && Step(s, e).Some? && (e.Put? || e.Rewrite?)
    ensures n in Step(s, e).value.disk ==> n in Step(s, e).value.born
    ensures n in Step(s, e).value.born ==> Wakes(Step(s, e).value, n)
  {
    hide Worked, Admitted, Looked, Target, Owed, Advanced, Released;
    assert Timely(s, s.workers[e.w]);
  }

  lemma TimelyMove(s: State, e: Event, w: nat)
    requires OnTime(s) && Step(s, e).Some? && w in Step(s, e).value.workers
    requires !e.Does? && !e.Admits? && !e.Claim? && !e.Settle?
    ensures Timely(Step(s, e).value, Step(s, e).value.workers[w])
  {
    if e.Put? || e.Rewrite? || e.Send? {
      TimelyWrite(s, e, w);
    } else if e.StartSweep? || e.Look? || e.EndSweep? {
      assert Timely(s, s.workers[w]);
    } else {
      hide Worked, Admitted, Looked, Advanced, Released, Target, Owed, Listing, Possible;
      if w in s.workers { assert Timely(s, s.workers[w]); }
    }
  }

  lemma TimelyWrite(s: State, e: Event, w: nat)
    requires OnTime(s) && Step(s, e).Some? && w in Step(s, e).value.workers && (e.Put? || e.Rewrite? || e.Send?)
    ensures Timely(Step(s, e).value, Step(s, e).value.workers[w])
  {
    hide Worked, Admitted, Looked, Advanced, Released, Target, Owed, Listing, Possible;
    assert Timely(s, s.workers[w]);
  }

  lemma TimelySettler(s: State, e: Event, w: nat)
    requires OnTime(s) && Step(s, e).Some? && w in Step(s, e).value.workers && (e.Claim? || e.Settle?)
    ensures Timely(Step(s, e).value, Step(s, e).value.workers[w])
  {
    hide Worked, Admitted, Looked, Advanced, Released, Target, Owed;
    assert Timely(s, s.workers[w]);
  }

  lemma TimelyAct(s: State, e: Event, w: nat)
    requires OnTime(s) && Step(s, e).Some? && w in Step(s, e).value.workers && (e.Does? || e.Admits?)
    ensures Timely(Step(s, e).value, Step(s, e).value.workers[w])
  {
    hide Worked, Admitted;
    assert Timely(s, s.workers[w]);
    if e.w == w {
      if e.Does? { TimelyWork(s, s.workers[w], e.work); } else { TimelyAdmit(s, s.workers[w], e.admit); }
    }
  }

  lemma PatientLook(s: State, y: Sweep, load: Load)
    requires OnTime(s) && Looked(s, y, load).Some?
    ensures Patient(s, Looked(s, y, load).value)
  {
    hide Timely;
  }

  lemma PatientStep(s: State, e: Event, x: nat)
    requires OnTime(s) && Step(s, e).Some? && x in Step(s, e).value.sweeps
    ensures Patient(Step(s, e).value, Step(s, e).value.sweeps[x])
  {
    hide Worked, Admitted, Looked, Target, Owed, Advanced, Released, Timely;
    if x in s.sweeps { assert Patient(s, s.sweeps[x]); }
    if e.Look? { PatientLook(s, s.sweeps[e.x], e.load); }
  }

  lemma OnTimeStep(s: State, e: Event)
    requires OnTime(s) && Step(s, e).Some?
    ensures OnTime(Step(s, e).value)
  {
    var t := Step(s, e).value;
    hide Step, Timely, Patient;
    forall x | x in t.sweeps ensures Patient(t, t.sweeps[x]) { PatientStep(s, e, x); }
    forall w | w in t.workers ensures Timely(t, t.workers[w]) {
      if e.Claim? || e.Settle? { TimelySettler(s, e, w); }
      else if e.Does? || e.Admits? { TimelyAct(s, e, w); }
      else { TimelyMove(s, e, w); }
    }
    if e.Put? || e.Rewrite? {
      forall n ensures (n in t.disk ==> n in t.born) && (n in t.born ==> Wakes(t, n)) { WritesOnTime(s, e, n); }
    } else {
      forall n ensures (n in t.disk ==> n in t.born) && (n in t.born ==> Wakes(t, n)) { FilesStay(s, e, n); }
    }
  }

  /** Message n is being sent, or taken as expired, by event e. */
  predicate Starts(s: State, e: Event, n: Name) {
    e.Send? && e.w in s.workers && s.workers[e.w].run.Picked? && s.workers[e.w].run.name == n
  }

  predicate Lapses(s: State, e: Event, n: Name) {
    && e.Claim? && Target(s, e.settler) == Some(n)
    && match e.settler
       case Runner(w) => w in s.workers && s.workers[w].run == Finishing(n, Expired)
       case Sweeper(x) => x in s.sweeps && s.sweeps[x].Claiming? && s.sweeps[x].outcome == Expired
       case Enqueuer(_) => false
  }

  lemma {:induction false} OnTimeRun(states: seq<State>, events: seq<Event>, i: nat)
    requires IsRun(states, events) && OnTime(states[0]) && i < |states|
    ensures OnTime(states[i])
    ensures states[i].opts == states[0].opts
  {
    hide Step, OnTime;
    if i > 0 {
      OnTimeRun(states, events, i - 1);
      assert Step(states[i - 1], events[i - 1]) == Some(states[i]);
      OnTimeStep(states[i - 1], events[i - 1]);
      SameOptions(states[i - 1], events[i - 1]);
    }
  }

  lemma SameOptions(s: State, e: Event)
    requires Step(s, e).Some?
    ensures Step(s, e).value.opts == s.opts && Step(s, e).value.now >= s.now
  {
    hide Worked, Admitted, Looked, Target, Owed, Advanced, Released;
  }

  lemma LapseAt(s: State, e: Event, n: Name)
    requires OnTime(s) && Step(s, e).Some?
    ensures Starts(s, e, n) ==> s.now <= Due(s, n)
    ensures Lapses(s, e, n) ==> Due(s, n) < s.now
  {
    if e.Send? && e.w in s.workers { assert Timely(s, s.workers[e.w]); }
    if e.Claim? && e.settler.Runner? && e.settler.w in s.workers { assert Timely(s, s.workers[e.settler.w]); }
    if e.Claim? && e.settler.Sweeper? && e.settler.x in s.sweeps { assert Patient(s, s.sweeps[e.settler.x]); }
  }

  /**
   * The flat TTL holds over every run, whatever fails: no not-before, on disk or held by any worker, is later than the
   * deadline or the time the file was first written; a message is sent only up to its deadline and dropped as expired
   * only after it.
   */
  lemma FlatTtl(states: seq<State>, events: seq<Event>, i: nat, n: Name)
    requires IsRun(states, events) && OnTime(states[0]) && i < |states|
    ensures n in states[i].disk ==> n in states[i].born
    ensures n in states[i].disk ==> states[i].disk[n].notBefore <= Max(n.at + states[0].opts.ttl, states[i].born[n])
    ensures forall w :: w in states[i].workers && n in states[i].workers[w].hold ==>
              states[i].workers[w].hold[n] <= n.at + states[0].opts.ttl
    ensures i < |events| && Starts(states[i], events[i], n) ==> states[i].now <= n.at + states[0].opts.ttl
    ensures i < |events| && Lapses(states[i], events[i], n) ==> n.at + states[0].opts.ttl < states[i].now
  {
    OnTimeRun(states, events, i);
    forall w | w in states[i].workers && n in states[i].workers[w].hold
      ensures states[i].workers[w].hold[n] <= n.at + states[0].opts.ttl
    {
      assert Timely(states[i], states[i].workers[w]);
    }
    if i < |events| {
      assert Step(states[i], events[i]) == Some(states[i + 1]);
      LapseAt(states[i], events[i], n);
    }
  }
}
