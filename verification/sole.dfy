/**
 * One worker and its enqueuers with every operation allowed to fail: unlinks, rewrites, listings and loads. No message
 * is settled twice, none that was settled is sent again, a delivered file that could not be unlinked is always one
 * eviction passes over, and the guard that exactly-once settlement rests on is a theorem.
 */
module SoleWorker {
  import opened Wrappers
  import opened Names
  import opened Machine
  import opened Settlement

  /** Events of worker 0 and its enqueuers; no sweep runs. */
  predicate Local(e: Event) {
    match e
    case Tick(_) => true
    case Start(w) => w == 0
    case Cancel(w) => w == 0
    case Does(w, _) => w == 0
    case Admits(w, _) => w == 0
    case Put(w) => w == 0
    case Send(w) => w == 0
    case Rewrite(w) => w == 0
    case Unstick(w, _) => w == 0
    case Claim(x, _) => x == Runner(0) || x == Enqueuer(0)
    case Settle(x, _) => x == Runner(0) || x == Enqueuer(0)
    case _ => false
  }

  function Me(s: State): Worker {
    if 0 in s.workers then s.workers[0] else NEW_WORKER
  }

  /** The run goroutine works on a message that it must still find on disk. */
  predicate Busy(r: Run) {
    InHand(r) || r.Finishing? || r.Owing?
  }

  /** What the worker's own fields promise. */
  ghost predicate Careful(s: State, w: Worker) {
    && (InScan(w.run) ==> w.admission.Nobody?)
    && (Busy(w.run) || w.run.Unremoved? ==>
          w.inFlight == Some(w.run.name) && w.run.name in s.disk && w.run.name !in w.stuck)
    && (w.run.Finished? || w.run.Dropped? ==> w.run.name in s.born && w.run.name !in s.disk)
    && (w.run.Finished? ==> w.inFlight == Some(w.run.name))
    && (w.run.Idle? || w.run.Stopped? || InScan(w.run) ==> w.inFlight == None)
    && (w.run.Dropping? ==> w.run.name in s.disk && w.run.name !in w.stuck)
    && (w.admission.Evicting? ==>
          w.admission.victim in s.disk && w.admission.victim !in w.stuck && w.inFlight != Some(w.admission.victim))
    && (w.admission.Evicted? ==> w.admission.victim in s.born && w.admission.victim !in s.disk)
  }

  /** The worker's run goroutine, or its enqueuer, has unlinked n and not settled it. */
  predicate Holds(w: Worker, n: Name) {
    Holding(w) && w.run.name == n
  }

  predicate Evicts(w: Worker, n: Name) {
    w.admission.Evicted? && w.admission.victim == n
  }

  /** n is delivered and settled, and only its file is left. */
  predicate Leftover(w: Worker, n: Name) {
    n in w.stuck || (w.run.Unremoved? && w.run.name == n)
  }

  /** Where message n is, faults included. */
  ghost predicate Fate(s: State, w: Worker, n: Name) {
    if n in s.disk then
      n in s.born && !Holds(w, n) && !Evicts(w, n) && s.Settled(n) == if Leftover(w, n) then 1 else 0
    else
      && !Leftover(w, n)
      && (n !in s.born ==> s.Settled(n) == 0 && !Holds(w, n) && !Evicts(w, n))
      && (n in s.born ==>
            s.Settled(n) + (if Holds(w, n) then 1 else 0) + (if Evicts(w, n) then 1 else 0) == 1)
  }

  ghost predicate Inv(s: State) {
    && s.sweeps == map[] && s.workers.Keys <= {0}
    && Careful(s, Me(s))
    && forall n :: Fate(s, Me(s), n)
  }

  lemma WorkKeeps(s: State, w: Worker, a: Work, n: Name)
    requires Careful(s, w) && Worked(s, w, a).Some? && Fate(s, w, n)
    ensures Careful(s, Worked(s, w, a).value) && Fate(s, Worked(s, w, a).value, n)
  {
    hide Postponed, Listing;
    if OfScan(a) { ScanKeeps(s, w, a, n); } else { AttemptKeeps(s, w, a, n); }
  }

  /** The steps of a scan. */
  predicate OfScan(a: Work) {
    a.List? || a.ListFails? || a.SkipUnreadable? || a.FindCorrupt? || a.SkipWaiting? || a.Pick? || a.EndScan?
  }

  lemma ScanKeeps(s: State, w: Worker, a: Work, n: Name)
    requires Careful(s, w) && Worked(s, w, a).Some? && Fate(s, w, n) && OfScan(a)
    ensures Careful(s, Worked(s, w, a).value) && Fate(s, Worked(s, w, a).value, n)
  {
    hide Postponed, Capped, NotBefore, Listing;
  }

  lemma AttemptKeeps(s: State, w: Worker, a: Work, n: Name)
    requires Careful(s, w) && Worked(s, w, a).Some? && Fate(s, w, n) && !OfScan(a)
    ensures Careful(s, Worked(s, w, a).value) && Fate(s, Worked(s, w, a).value, n)
  {
    hide Postponed, Capped, NotBefore, Listing;
  }

  lemma VictimSpared(names: seq<Name>, skip: set<Name>)
    ensures Oldest(names, skip).Some? ==> Oldest(names, skip).value in names && Oldest(names, skip).value !in skip
  {
  }

  lemma AdmitKeeps(s: State, w: Worker, a: Admit, n: Name)
    requires Careful(s, w) && Admitted(s, w, a).Some? && Fate(s, w, n)
    ensures Careful(s, Admitted(s, w, a).value) && Fate(s, Admitted(s, w, a).value, n)
  {
    hide Oldest;
    if a.Choose? { VictimSpared(a.names, Skip(w)); }
  }

  /** The state and the worker after a local event, seen from the message n. */
  ghost predicate Kept(s: State, e: Event, n: Name)
    requires Step(s, e).Some?
  {
    var t := Step(s, e).value;
    t.sweeps == map[] && t.workers.Keys <= {0} && Careful(t, Me(t)) && Fate(t, Me(t), n)
  }

  lemma PutKeeps(s: State, n: Name)
    requires Inv(s) && Step(s, Put(0)).Some?
    ensures Kept(s, Put(0), n)
  {
    var m := Me(s).admission.name;
    assert Fate(s, Me(s), m) && Fate(s, Me(s), n);
  }

  lemma RunKeeps(s: State, e: Event, n: Name)
    requires Inv(s) && Step(s, e).Some? && (e == Send(0) || e == Rewrite(0))
    ensures Kept(s, e, n)
  {
    assert Fate(s, Me(s), n);
  }

  lemma UnstickKeeps(s: State, u: Unlink, n: Name)
    requires Inv(s) && Step(s, Unstick(0, u)).Some?
    ensures Kept(s, Unstick(0, u), n)
  {
    assert Fate(s, Me(s), n);
  }

  lemma RunnerClaimKeeps(s: State, u: Unlink, n: Name)
    requires Inv(s) && Step(s, Claim(Runner(0), u)).Some?
    ensures Kept(s, Claim(Runner(0), u), n)
  {
    hide Worked, Admitted, Looked;
    assert Fate(s, Me(s), n) && Fate(s, Me(s), Me(s).run.name);
  }

  lemma EvictionClaimKeeps(s: State, u: Unlink, n: Name)
    requires Inv(s) && Step(s, Claim(Enqueuer(0), u)).Some?
    ensures Kept(s, Claim(Enqueuer(0), u), n)
  {
    hide Worked, Admitted, Looked;
    assert Fate(s, Me(s), n) && Fate(s, Me(s), Me(s).admission.victim);
  }

  lemma RunnerSettleKeeps(s: State, c: bool, n: Name)
    requires Inv(s) && Step(s, Settle(Runner(0), c)).Some?
    ensures Kept(s, Settle(Runner(0), c), n)
  {
    hide Worked, Admitted, Looked, Resumes, Proceeds, AfterClaim, Advanced, Target, Unlinked, Possible, Listing;
    if Me(s).run.Owing? { OwedSettleKeeps(s, c, n); } else { OwnedSettleKeeps(s, c, n); }
  }

  /** The message was delivered and its file would not go. */
  lemma OwedSettleKeeps(s: State, c: bool, n: Name)
    requires Inv(s) && Step(s, Settle(Runner(0), c)).Some? && Me(s).run.Owing?
    ensures Kept(s, Settle(Runner(0), c), n)
  {
    hide Worked, Admitted, Looked, Resumes, Proceeds, AfterClaim, Advanced, Target, Unlinked, Possible, Listing;
    assert Fate(s, Me(s), n) && Fate(s, Me(s), Me(s).run.name);
  }

  /** The worker took the file. */
  lemma OwnedSettleKeeps(s: State, c: bool, n: Name)
    requires Inv(s) && Step(s, Settle(Runner(0), c)).Some? && !Me(s).run.Owing?
    ensures Kept(s, Settle(Runner(0), c), n)
  {
    hide Worked, Admitted, Looked, Resumes, Proceeds, AfterClaim, Advanced, Target, Unlinked, Possible, Listing;
    assert Fate(s, Me(s), n) && Fate(s, Me(s), Me(s).run.name);
  }

  lemma EvictionSettleKeeps(s: State, c: bool, n: Name)
    requires Inv(s) && Step(s, Settle(Enqueuer(0), c)).Some?
    ensures Kept(s, Settle(Enqueuer(0), c), n)
  {
    hide Worked, Admitted, Looked;
    assert Fate(s, Me(s), n) && Fate(s, Me(s), Me(s).admission.victim);
  }

  /** Acts of the worker's own goroutine and of its enqueuer that stay inside the worker. */
  lemma ActKeeps(s: State, e: Event, n: Name)
    requires Inv(s) && Step(s, e).Some? && (e.Does? || e.Admits?) && e.w == 0
    ensures Kept(s, e, n)
  {
    hide Worked, Admitted;
    assert Fate(s, Me(s), n);
    var t := Step(s, e).value;
    if e.Does? { WorkKeeps(s, Me(s), e.work, n); } else { AdmitKeeps(s, Me(s), e.admit, n); }
    assert Careful(t, Me(t)) && Fate(t, Me(t), n);
  }

  lemma OutsideKeeps(s: State, e: Event, n: Name)
    requires Inv(s) && Step(s, e).Some? && (e.Tick? || e == Start(0) || e == Cancel(0))
    ensures Kept(s, e, n)
  {
    assert Fate(s, Me(s), n);
  }

  lemma LocalKeeps(s: State, e: Event, n: Name)
    requires Inv(s) && Local(e) && Step(s, e).Some?
    ensures Kept(s, e, n)
  {
    hide Step, Inv, Kept;
    match e {
      case Does(_, _) => ActKeeps(s, e, n);
      case Admits(_, _) => ActKeeps(s, e, n);
      case Put(_) => PutKeeps(s, n);
      case Send(_) => RunKeeps(s, e, n);
      case Rewrite(_) => RunKeeps(s, e, n);
      case Unstick(_, u) => UnstickKeeps(s, u, n);
      case Claim(x, u) => if x.Runner? { RunnerClaimKeeps(s, u, n); } else { EvictionClaimKeeps(s, u, n); }
      case Settle(x, c) => if x.Runner? { RunnerSettleKeeps(s, c, n); } else { EvictionSettleKeeps(s, c, n); }
      case _ => OutsideKeeps(s, e, n);
    }
  }

  lemma InvStep(s: State, e: Event)
    requires Inv(s) && Local(e) && Step(s, e).Some?
    ensures Inv(Step(s, e).value)
  {
    var t := Step(s, e).value;
    hide Step, Local;
    forall n ensures Fate(t, Me(t), n) { LocalKeeps(s, e, n); }
    LocalKeeps(s, e, Name(false, 0, ""));
  }

  lemma InitialInv(s: State)
    requires Initial(s)
    ensures Inv(s)
  {
  }

  lemma {:induction false} InvRun(states: seq<State>, events: seq<Event>, i: nat)
    requires IsRun(states, events) && Initial(states[0]) && i < |states|
    requires forall e :: e in events ==> Local(e)
    ensures Inv(states[i])
  {
    hide Step, Inv, Local;
    if i == 0 {
      InitialInv(states[0]);
    } else {
      InvRun(states, events, i - 1);
      assert Step(states[i - 1], events[i - 1]) == Some(states[i]);
      assert events[i - 1] in events;
      InvStep(states[i - 1], events[i - 1]);
    }
  }

  /**
   * Why a file may leave the directory: its message was delivered and settled before, its bytes were read and do not
   * parse, the worker has a terminal outcome for it, or it is the eviction victim. A failed read is none of these.
   */
  predicate Cause(s: State, e: Event, n: Name) {
    var w := Me(s);
    || Leftover(w, n)
    || (e == Claim(Runner(0), Won) && (w.run.Dropping? || w.run.Finishing?) && w.run.name == n)
    || (e == Claim(Enqueuer(0), Won) && w.admission.Evicting? && w.admission.victim == n)
  }

  lemma LeavesForCause(s: State, e: Event, n: Name)
    requires Inv(s) && Local(e) && Step(s, e).Some? && n in s.disk && n !in Step(s, e).value.disk
    ensures Cause(s, e, n)
  {
    hide Worked, Admitted;
  }

  /** The event hands message n to the adapter. */
  predicate Sends(s: State, e: Event, n: Name) {
    e == Send(0) && Me(s).run.Picked? && Me(s).run.name == n
  }

  /**
   * Fault tolerance of one worker with concurrent enqueuers, over every run in which any operation may fail at any
   * time: a message is settled at most once, and one that is not on disk is settled or about to be; what is settled
   * and still on disk is passed over by eviction; no settled message is sent; a rewrite replaces a file that is
   * there; and a file leaves the directory only for cause.
   */
  lemma FaultTolerance(states: seq<State>, events: seq<Event>, i: nat, n: Name)
    requires IsRun(states, events) && Initial(states[0]) && i < |states|
    requires forall e :: e in events ==> Local(e)
    ensures states[i].Settled(n) <= 1
    ensures n in states[i].born && n !in states[i].disk && states[i].Settled(n) == 0 ==>
              Owned(states[i], Runner(0)) == Some(n) || Owned(states[i], Enqueuer(0)) == Some(n)
    ensures n in states[i].disk && states[i].Settled(n) > 0 ==> n in Skip(Me(states[i]))
    ensures i < |events| ==> Guarded(states[i], events[i])
    ensures i < |events| && Sends(states[i], events[i], n) ==> states[i].Settled(n) == 0
    ensures i < |events| && n in states[i].disk && n !in states[i + 1].disk ==> Cause(states[i], events[i], n)
  {
    InvRun(states, events, i);
    var s := states[i];
    assert Fate(s, Me(s), n);
    if i < |events| {
      assert Step(s, events[i]) == Some(states[i + 1]) && Local(events[i]);
      AtStep(s, events[i]);
      if n in s.disk && n !in states[i + 1].disk { LeavesForCause(s, events[i], n); }
    }
  }

  lemma AtStep(s: State, e: Event)
    requires Inv(s) && Local(e) && Step(s, e).Some?
    ensures Guarded(s, e)
    ensures forall n :: Sends(s, e, n) ==> s.Settled(n) == 0
  {
    hide Worked, Admitted;
    if e == Send(0) { assert Fate(s, Me(s), Me(s).run.name); }
  }
}
