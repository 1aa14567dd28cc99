/**
 * Conservation and exactly-once settlement over every interleaving of worker, enqueuers and sweeps: a message is on
 * disk, or unlinked and owned by exactly one settler, or settled once, and never two of these. The runs with reliable
 * unlinks that keep this are exactly those in which no rewrite recreates a file that another settler has taken.
 */
module Settlement {
  import opened Wrappers
  import opened Names
  import opened Machine

  ghost predicate Owns(s: State, x: Settler, n: Name) {
    Owned(s, x) == Some(n)
  }

  ghost predicate OwnedByNobody(s: State, n: Name) {
    forall x :: !Owns(s, x, n)
  }

  ghost predicate OwnedByOne(s: State, n: Name) {
    exists x :: Owns(s, x, n) && forall y :: Owns(s, y, n) ==> y == x
  }

  /** Message n is in exactly one of its three places; a name never written is in none of them. */
  ghost predicate Accounted(s: State, n: Name) {
    if n !in s.born then n !in s.disk && OwnedByNobody(s, n) && s.Settled(n) == 0
    else if n in s.disk then OwnedByNobody(s, n) && s.Settled(n) == 0
    else (OwnedByOne(s, n) && s.Settled(n) == 0) || (OwnedByNobody(s, n) && s.Settled(n) == 1)
  }

  ghost predicate Conserved(s: State) {
    forall n :: Accounted(s, n)
  }

  /** No unlink of the event fails with the file still there. */
  predicate Reliable(e: Event) {
    (e.Claim? || e.Unstick?) ==> !e.unlink.Refused?
  }

  /** A rewrite finds the file it replaces still on disk. */
  predicate Guarded(s: State, e: Event) {
    e.Rewrite? && e.w in s.workers && s.workers[e.w].run.Rewriting? ==> s.workers[e.w].run.name in s.disk
  }

  /** Nothing is stuck: no delivered file was left behind by a failed unlink. */
  predicate Unstuck(s: State) {
    forall w :: w in s.workers ==> Clean(s.workers[w])
  }

  predicate Clean(w: Worker) {
    w.stuck == {} && !w.run.Owing? && !w.run.Unremoved?
  }

  lemma CleanWork(s: State, w: Worker, a: Work)
    requires Clean(w) && Worked(s, w, a).Some?
    ensures Clean(Worked(s, w, a).value)
  {
  }

  lemma CleanAdmit(s: State, w: Worker, a: Admit)
    requires Clean(w) && Admitted(s, w, a).Some?
    ensures Clean(Admitted(s, w, a).value)
  {
  }

  lemma CleanClaim(s: State, x: Settler, u: Unlink, w: nat)
    requires Step(s, Claim(x, u)).Some? && !u.Refused? && w in s.workers && Clean(s.workers[w])
    ensures w in Step(s, Claim(x, u)).value.workers && Clean(Step(s, Claim(x, u)).value.workers[w])
  {
    hide Worked, Admitted, Looked;
    var r := s.workers[w].run;
    if r.Finishing? || r.Dropping? {
      assert !AfterClaim(r, u).Owing?;
    }
  }

  lemma CleanSettle(s: State, x: Settler, c: bool, w: nat)
    requires Step(s, Settle(x, c)).Some? && w in s.workers && Clean(s.workers[w])
    ensures w in Step(s, Settle(x, c)).value.workers && Clean(Step(s, Settle(x, c)).value.workers[w])
  {
    hide Worked, Admitted, Looked;
    var r := s.workers[w].run;
    if r.Finished? || r.Dropped? {
      assert !AfterSettle(r).Unremoved?;
    }
  }

  /** A worker after a step is a new one, or an old one that moved. */
  lemma CleanMove(s: State, e: Event, w: nat)
    requires Step(s, e).Some? && w in Step(s, e).value.workers && !e.Claim? && !e.Settle? && !e.Does? && !e.Admits?
    requires w in s.workers ==> Clean(s.workers[w])
    ensures Clean(Step(s, e).value.workers[w])
  {
    hide Worked, Admitted, Looked;
  }

  lemma CleanAct(s: State, e: Event, w: nat)
    requires Step(s, e).Some? && w in s.workers && (e.Does? || e.Admits?) && Clean(s.workers[w])
    ensures w in Step(s, e).value.workers && Clean(Step(s, e).value.workers[w])
  {
    hide Worked, Admitted;
    if e.Does? && e.w == w { CleanWork(s, s.workers[w], e.work); }
    if e.Admits? && e.w == w { CleanAdmit(s, s.workers[w], e.admit); }
  }

  /** Nobody but Start makes a worker. */
  lemma SameWorkers(s: State, e: Event, w: nat)
    requires Step(s, e).Some? && !e.Start?
    ensures w in Step(s, e).value.workers <==> w in s.workers
  {
    hide Worked, Admitted, Looked, Possible, Advanced, Released, Target, Owed;
  }

  lemma CleanStep(s: State, e: Event, w: nat)
    requires Step(s, e).Some? && Reliable(e) && w in Step(s, e).value.workers
    requires w in s.workers ==> Clean(s.workers[w])
    ensures Clean(Step(s, e).value.workers[w])
  {
    hide Step;
    if !e.Start? { SameWorkers(s, e, w); }
    if e.Claim? { CleanClaim(s, e.settler, e.unlink, w); }
    else if e.Settle? { CleanSettle(s, e.settler, e.consumed, w); }
    else if e.Does? || e.Admits? { CleanAct(s, e, w); }
    else { CleanMove(s, e, w); }
  }

  lemma UnstuckStep(s: State, e: Event)
    requires Unstuck(s) && Step(s, e).Some? && Reliable(e)
    ensures Unstuck(Step(s, e).value)
  {
    hide Step;
    forall w | w in Step(s, e).value.workers ensures Clean(Step(s, e).value.workers[w]) { CleanStep(s, e, w); }
  }

  /** The accounts of a message depend only on who owns it, whether it is on disk, and how often it was settled. */
  lemma SameAccount(s: State, t: State, n: Name)
    requires Accounted(s, n)
    requires n in s.disk <==> n in t.disk
    requires n in s.born <==> n in t.born
    requires s.Settled(n) == t.Settled(n)
    requires forall x :: Owns(s, x, n) <==> Owns(t, x, n)
    ensures Accounted(t, n)
  {
  }

  /** A step that neither unlinks, settles, puts nor rewrites. */
  predicate Private(e: Event) {
    !(e.Put? || e.Rewrite? || e.Unstick? || e.Claim? || e.Settle?)
  }

  predicate Holding(w: Worker) {
    w.run.Finished? || w.run.Dropped?
  }

  /** A private step of a run goroutine starts and ends without an unsettled unlink. */
  lemma WorkHoldsNothing(s: State, w: Worker, a: Work)
    requires Worked(s, w, a).Some?
    ensures Worked(s, w, a).value.admission == w.admission
    ensures !Holding(w) && !Holding(Worked(s, w, a).value)
  {
  }

  lemma AdmitHoldsNothing(s: State, w: Worker, a: Admit)
    requires Admitted(s, w, a).Some?
    ensures Admitted(s, w, a).value.run == w.run
    ensures !w.admission.Evicted? && !Admitted(s, w, a).value.admission.Evicted?
  {
  }

  lemma PrivateOwns(s: State, e: Event, x: Settler)
    requires Private(e) && Step(s, e).Some?
    ensures Owned(Step(s, e).value, x) == Owned(s, x)
  {
    hide Worked, Admitted, Target, Owed, Advanced, Released;
    match e {
      case Does(w, a) => WorkHoldsNothing(s, s.workers[w], a);
      case Admits(w, a) => AdmitHoldsNothing(s, s.workers[w], a);
      case _ =>
    }
  }

  lemma PrivateStep(s: State, e: Event, n: Name)
    requires Accounted(s, n) && Private(e) && Step(s, e).Some?
    ensures Accounted(Step(s, e).value, n)
  {
    forall x ensures Owns(s, x, n) <==> Owns(Step(s, e).value, x, n) { PrivateOwns(s, e, x); }
    SameAccount(s, Step(s, e).value, n);
  }

  lemma WriteOwns(s: State, e: Event, x: Settler)
    requires (e.Put? || e.Rewrite?) && Step(s, e).Some?
    ensures Owned(Step(s, e).value, x) == Owned(s, x)
  {
  }

  lemma WriteStep(s: State, e: Event, n: Name)
    requires Conserved(s) && (e.Put? || e.Rewrite?) && Step(s, e).Some? && Guarded(s, e)
    ensures Accounted(Step(s, e).value, n)
  {
    assert Accounted(s, n);
    forall x ensures Owns(s, x, n) <==> Owns(Step(s, e).value, x, n) { WriteOwns(s, e, x); }
  }

  lemma ClaimOwns(s: State, x: Settler, u: Unlink, y: Settler)
    requires Step(s, Claim(x, u)).Some? && !u.Refused?
    ensures Owned(s, x) == None
    ensures Owned(Step(s, Claim(x, u)).value, y) == if y == x && u.Won? then Target(s, x) else Owned(s, y)
  {
  }

  lemma ClaimStep(s: State, x: Settler, u: Unlink, n: Name)
    requires Accounted(s, n) && Step(s, Claim(x, u)).Some? && !u.Refused?
    ensures Accounted(Step(s, Claim(x, u)).value, n)
  {
    var t := Step(s, Claim(x, u)).value;
    forall y ensures Owned(t, y) == if y == x && u.Won? then Target(s, x) else Owned(s, y) { ClaimOwns(s, x, u, y); }
    if u.Won? && Target(s, x) == Some(n) {
      assert Owns(t, x, n);
      assert forall y :: Owns(t, y, n) ==> y == x || Owns(s, y, n);
    } else {
      assert forall y :: Owns(s, y, n) <==> Owns(t, y, n) by { ClaimOwns(s, x, u, x); }
      SameAccount(s, t, n);
    }
  }

  lemma SettleOwns(s: State, x: Settler, c: bool, y: Settler)
    requires Unstuck(s) && Step(s, Settle(x, c)).Some?
    ensures Owned(Step(s, Settle(x, c)).value, y) == if y == x then None else Owned(s, y)
  {
    hide Worked, Admitted, Looked, Target, Advanced, Unlinked, Proceeds, Resumes;
  }

  lemma SettleCounts(s: State, x: Settler, c: bool, n: Name)
    requires Step(s, Settle(x, c)).Some?
    ensures Step(s, Settle(x, c)).value.Settled(n) == s.Settled(n) + if Owed(s, x) == Some(n) then 1 else 0
    ensures Step(s, Settle(x, c)).value.disk == s.disk && Step(s, Settle(x, c)).value.born == s.born
  {
    hide Owed, AfterSettle;
  }

  lemma SettleStep(s: State, x: Settler, c: bool, n: Name)
    requires Accounted(s, n) && Unstuck(s) && Step(s, Settle(x, c)).Some?
    ensures Accounted(Step(s, Settle(x, c)).value, n)
  {
    var t := Step(s, Settle(x, c)).value;
    forall y ensures Owned(t, y) == if y == x then None else Owned(s, y) { SettleOwns(s, x, c, y); }
    assert Owed(s, x) == Owned(s, x);
    SettleCounts(s, x, c, n);
    hide Step, Owned, Owed;
    if Owned(s, x) == Some(n) {
      assert Owns(s, x, n);
      assert OwnedByOne(s, n);
      assert forall y :: Owns(t, y, n) ==> y != x && Owns(s, y, n);
    } else {
      assert forall y :: Owns(s, y, n) <==> Owns(t, y, n);
      SameAccount(s, t, n);
    }
  }

  /** One step keeps the accounts, whoever takes it, as long as a rewrite finds its file. */
  lemma ConservedStep(s: State, e: Event)
    requires Conserved(s) && Unstuck(s) && Step(s, e).Some? && Reliable(e) && Guarded(s, e)
    ensures Conserved(Step(s, e).value)
  {
    forall n ensures Accounted(Step(s, e).value, n) {
      assert Accounted(s, n);
      if e.Put? || e.Rewrite? { WriteStep(s, e, n); }
      else if e.Claim? { ClaimStep(s, e.settler, e.unlink, n); }
      else if e.Settle? { SettleStep(s, e.settler, e.consumed, n); }
      else if Private(e) { PrivateStep(s, e, n); }
    }
  }

  /** A rewrite of a file that is gone breaks the accounts at once: the message is back on disk and taken as well. */
  lemma UnguardedBreaks(s: State, e: Event)
    requires Conserved(s) && Step(s, e).Some? && !Guarded(s, e)
    ensures !Conserved(Step(s, e).value)
  {
    var n := s.workers[e.w].run.name;
    var t := Step(s, e).value;
    assert Accounted(s, n);
    forall x ensures Owns(s, x, n) <==> Owns(t, x, n) { WriteOwns(s, e, x); }
    if n in s.born && OwnedByOne(s, n) {
      var x :| Owns(s, x, n);
      assert Owns(t, x, n);
    }
    assert !Accounted(t, n);
  }

  lemma InitialConserved(s: State)
    requires Initial(s)
    ensures Conserved(s) && Unstuck(s)
  {
    forall n ensures Accounted(s, n) {
    }
  }

  /**
   * Exactly once, engine-wide: a run with reliable unlinks keeps every message in exactly one place throughout
   * if and only if each of its rewrites finds its file still on disk.
   */
  lemma {:induction false} ExactlyOnce(states: seq<State>, events: seq<Event>)
    requires IsRun(states, events) && Initial(states[0])
    requires forall e :: e in events ==> Reliable(e)
    ensures (forall i :: 0 <= i < |states| ==> Conserved(states[i]))
       <==> (forall i :: 0 <= i < |events| ==> Guarded(states[i], events[i]))
    ensures forall i :: 0 <= i < |states| ==> Unstuck(states[i])
  {
    hide Step;
    hide Guarded;
    hide Conserved;
    hide Unstuck;
    hide Reliable;
    if events == [] {
      InitialConserved(states[0]);
    } else {
      var k := |events| - 1;
      ExactlyOnce(states[..k + 1], events[..k]);
      assert Step(states[k], events[k]) == Some(states[k + 1]);
      assert events[k] in events;
      assert states[..k + 1][k] == states[k];
      UnstuckStep(states[k], events[k]);
      if Conserved(states[k]) {
        if Guarded(states[k], events[k]) {
          ConservedStep(states[k], events[k]);
        } else {
          UnguardedBreaks(states[k], events[k]);
        }
      }
      forall i | 0 <= i < |states| ensures Unstuck(states[i]) {
        if i <= k { assert states[i] == states[..k + 1][i]; }
      }
    }
  }

}
