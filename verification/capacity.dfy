/**
 * The spool cap. With one worker the pending files never outnumber the cap (or two, or what was there at the start) as
 * long as admissions that could not count or list the directory find room, and a message that is evicted is the oldest
 * of those neither in flight nor delivered.
 */
module Capacity {
  import opened Wrappers
  import opened Names
  import opened Machine
  import opened Settlement
  import opened SoleWorker
  import opened Deadline

  /** The admission under way skips eviction, because the files could not be counted or listed. */
  predicate StillBlind(blind: bool, e: Event) {
    if e.Admits? && e.admit.Count? then !e.admit.ok else blind || (e.Admits? && e.admit.ChooseFails?)
  }

  predicate Blind(events: seq<Event>, i: nat)
    requires i <= |events|
  {
    i > 0 && StillBlind(Blind(events, i - 1), events[i - 1])
  }

  /** The cap, or two for a message in flight beside a new one, or what was there at the start. */
  function Bound(s: State): int {
    Max(Max(s.opts.cap, 2), |s.disk|)
  }

  /** Room for the message being admitted, if eviction was not skipped. */
  predicate Room(s: State, w: Worker, b: int, blind: bool) {
    && |s.disk| <= b
    && (!blind && (w.admission.Evicted? || w.admission.Admitting? || w.admission.Stamped?) ==> |s.disk| < b)
  }

  /** The victim is still the oldest message that may go. */
  predicate Eldest(s: State, w: Worker) {
    w.admission.Evicting? ==> forall m :: m in s.disk && m !in Skip(w) ==> w.admission.victim.at <= m.at
  }

  lemma OldestIsEldest(names: seq<Name>, skip: set<Name>, m: Name)
    requires m in names && m !in skip
    ensures Oldest(names, skip).Some? && Oldest(names, skip).value.at <= m.at
  {
    var i :| 0 <= i < |names| && names[i] == m;
  }

  lemma FewLeft(disk: set<Name>, skip: set<Name>, x: Option<Name>)
    requires disk <= skip && skip == if x.Some? then {x.value} else {}
    ensures |disk| <= 1
  {
    if x.Some? {
      assert disk <= {x.value};
      if x.value in disk { assert disk == {x.value}; } else { assert disk == {}; }
    } else {
      assert disk == {};
    }
  }

  lemma ChooseRoom(s: State, w: Worker, names: seq<Name>, b: int)
    requires Room(s, w, b, false) && w.stuck == {} && b >= 2 && Admitted(s, w, Choose(names)).Some?
    ensures Room(s, Admitted(s, w, Choose(names)).value, b, false)
  {
    hide Oldest;
    if Oldest(names, Skip(w)).None? {
      forall m | m in s.disk.Keys ensures m in Skip(w) {
        if m !in Skip(w) { OldestIsEldest(names, Skip(w), m); }
      }
      FewLeft(s.disk.Keys, Skip(w), w.inFlight);
      assert |s.disk| == |s.disk.Keys|;
    }
  }

  lemma AdmitRoom(s: State, w: Worker, a: Admit, b: int, blind: bool)
    requires Room(s, w, b, blind) && w.stuck == {} && b >= 2 && b >= s.opts.cap && Admitted(s, w, a).Some?
    ensures Room(s, Admitted(s, w, a).value, b, StillBlind(blind, Admits(0, a)))
  {
    hide Oldest;
    if a.Choose? && !blind { ChooseRoom(s, w, a.names, b); }
  }

  lemma AdmitEldest(s: State, w: Worker, a: Admit)
    requires Eldest(s, w) && Admitted(s, w, a).Some?
    ensures Eldest(s, Admitted(s, w, a).value)
  {
    hide Oldest;
    if a.Choose? {
      forall m | m in s.disk && m !in Skip(w)
        ensures Oldest(a.names, Skip(w)).Some? && Oldest(a.names, Skip(w)).value.at <= m.at
      {
        OldestIsEldest(a.names, Skip(w), m);
      }
    }
  }

  /** The enqueuer's lock keeps what eviction passes over fixed while a victim is chosen. */
  lemma WorkEldest(s: State, w: Worker, a: Work)
    requires Careful(s, w) && Eldest(s, w) && Worked(s, w, a).Some?
    ensures Eldest(s, Worked(s, w, a).value)
  {
  }

  ghost predicate StaysEldest(s: State, e: Event)
    requires Step(s, e).Some?
  {
    Eldest(Step(s, e).value, Me(Step(s, e).value))
  }

  ghost predicate StaysRoom(s: State, e: Event, b: int, blind: bool)
    requires Step(s, e).Some?
  {
    Room(Step(s, e).value, Me(Step(s, e).value), b, StillBlind(blind, e))
  }

  lemma ActStays(s: State, e: Event, b: int, blind: bool)
    requires Inv(s) && Step(s, e).Some? && (e.Does? || e.Admits?) && e.w == 0
    ensures Eldest(s, Me(s)) ==> StaysEldest(s, e)
    ensures Room(s, Me(s), b, blind) && Unstuck(s) && b >= 2 && b >= s.opts.cap ==> StaysRoom(s, e, b, blind)
  {
    hide Worked, Admitted, Careful, Fate;
    var w, t := Me(s), Step(s, e).value;
    if e.Does? {
      SameAdmission(s, w, e.work);
      if Eldest(s, w) { WorkEldest(s, w, e.work); }
    } else {
      if Eldest(s, w) { AdmitEldest(s, w, e.admit); }
      if Room(s, w, b, blind) && Unstuck(s) && b >= 2 && b >= s.opts.cap {
        assert Clean(w);
        AdmitRoom(s, w, e.admit, b, blind);
      }
    }
  }

  lemma SameAdmission(s: State, w: Worker, a: Work)
    requires Worked(s, w, a).Some?
    ensures Worked(s, w, a).value.admission == w.admission
  {
  }

  lemma PutStays(s: State, b: int, blind: bool)
    requires Inv(s) && Step(s, Put(0)).Some?
    ensures Eldest(s, Me(s)) ==> StaysEldest(s, Put(0))
    ensures Room(s, Me(s), b, blind) && (blind ==> |s.disk| < b) ==> StaysRoom(s, Put(0), b, blind)
  {
    hide Worked, Admitted, Looked, Fate, Advanced, Released, Target, Owed, Possible;
    var t := Step(s, Put(0)).value;
    assert t.disk.Keys == s.disk.Keys + {Me(s).admission.name};
    assert |t.disk| == |t.disk.Keys| && |s.disk| == |s.disk.Keys|;
  }

  lemma RewriteStays(s: State, b: int, blind: bool)
    requires Inv(s) && Step(s, Rewrite(0)).Some?
    ensures Eldest(s, Me(s)) ==> StaysEldest(s, Rewrite(0))
    ensures Room(s, Me(s), b, blind) ==> StaysRoom(s, Rewrite(0), b, blind)
  {
    hide Worked, Admitted, Looked, Fate, Advanced, Released, Target, Owed, Possible;
    var t := Step(s, Rewrite(0)).value;
    assert t.disk.Keys == s.disk.Keys;
    assert |t.disk| == |t.disk.Keys| && |s.disk| == |s.disk.Keys|;
  }

  /** The directory after an unlink attempt. */
  lemma Shrinks(s: State, t: State, n: Name, u: Unlink)
    requires t.disk == if u.Won? then s.disk - {n} else s.disk
    requires Possible(s, n, u)
    ensures t.disk.Keys <= s.disk.Keys
    ensures |t.disk| == if u.Won? then |s.disk| - 1 else |s.disk|
  {
    assert u.Won? ==> t.disk.Keys == s.disk.Keys - {n};
    assert |t.disk| == |t.disk.Keys| && |s.disk| == |s.disk.Keys|;
  }

  lemma ClaimStays(s: State, x: Settler, u: Unlink, b: int, blind: bool)
    requires Inv(s) && (x == Runner(0) || x == Enqueuer(0)) && Step(s, Claim(x, u)).Some?
    ensures Eldest(s, Me(s)) ==> StaysEldest(s, Claim(x, u))
    ensures Room(s, Me(s), b, blind) && !u.Refused? ==> StaysRoom(s, Claim(x, u), b, blind)
  {
    hide Worked, Admitted, Looked, Fate;
    Shrinks(s, Step(s, Claim(x, u)).value, Target(s, x).value, u);
  }

  lemma SettleStays(s: State, x: Settler, c: bool, b: int, blind: bool)
    requires Inv(s) && (x == Runner(0) || x == Enqueuer(0)) && Step(s, Settle(x, c)).Some?
    ensures Eldest(s, Me(s)) ==> StaysEldest(s, Settle(x, c))
    ensures Room(s, Me(s), b, blind) ==> StaysRoom(s, Settle(x, c), b, blind)
  {
    hide Worked, Admitted, Looked, Fate;
  }

  lemma OtherStays(s: State, e: Event, b: int, blind: bool)
    requires Inv(s) && Local(e) && Step(s, e).Some?
    requires e.Tick? || e.Start? || e.Cancel? || e.Send?
    ensures Eldest(s, Me(s)) ==> StaysEldest(s, e)
    ensures Room(s, Me(s), b, blind) ==> StaysRoom(s, e, b, blind)
  {
    hide Worked, Admitted, Looked, Fate, Advanced, Released, Target, Owed, Possible;
  }

  lemma UnstickStays(s: State, e: Event, b: int, blind: bool)
    requires Inv(s) && Local(e) && Step(s, e).Some? && e.Unstick?
    ensures Eldest(s, Me(s)) ==> StaysEldest(s, e)
    ensures Room(s, Me(s), b, blind) ==> StaysRoom(s, e, b, blind)
  {
    Shrinks(s, Step(s, e).value, Me(s).run.todo[0], e.unlink);
    hide Worked, Admitted, Looked, Fate, Advanced, Released, Target, Owed, Possible;
  }

  lemma Stays(s: State, e: Event, b: int, blind: bool)
    requires Inv(s) && Local(e) && Step(s, e).Some?
    ensures Eldest(s, Me(s)) ==> StaysEldest(s, e)
    ensures Room(s, Me(s), b, blind) && (e == Put(0) && blind ==> |s.disk| < b)
              && Unstuck(s) && b >= 2 && b >= s.opts.cap && Reliable(e) ==>
              StaysRoom(s, e, b, blind)
  {
    hide Step, Inv, Eldest, Room, Unstuck, StaysRoom, StaysEldest;
    match e {
      case Does(_, _) => ActStays(s, e, b, blind);
      case Admits(_, _) => ActStays(s, e, b, blind);
      case Put(_) => PutStays(s, b, blind);
      case Rewrite(_) => RewriteStays(s, b, blind);
      case Claim(x, u) => ClaimStays(s, x, u, b, blind);
      case Settle(x, c) => SettleStays(s, x, c, b, blind);
      case Unstick(_, _) => UnstickStays(s, e, b, blind);
      case _ => OtherStays(s, e, b, blind);
    }
  }

  lemma {:induction false} EldestRun(states: seq<State>, events: seq<Event>, i: nat)
    requires IsRun(states, events) && Initial(states[0]) && i < |states|
    requires forall e :: e in events ==> Local(e)
    ensures Eldest(states[i], Me(states[i]))
  {
    hide Step, Inv, Local;
    if i > 0 {
      InvRun(states, events, i - 1);
      EldestRun(states, events, i - 1);
      assert Step(states[i - 1], events[i - 1]) == Some(states[i]);
      assert events[i - 1] in events;
      Stays(states[i - 1], events[i - 1], 0, true);
    }
  }

  /**
   * Whatever fails: when eviction unlinks a message, every other message on disk that is neither in flight nor already
   * delivered was enqueued at the same time or later, test sends and normal traffic alike.
   */
  lemma EvictsOldest(states: seq<State>, events: seq<Event>, i: nat, m: Name)
    requires IsRun(states, events) && Initial(states[0]) && i < |events|
    requires forall e :: e in events ==> Local(e)
    requires events[i] == Claim(Enqueuer(0), Won)
    requires m in states[i].disk && m !in Me(states[i]).stuck && Me(states[i]).inFlight != Some(m)
    ensures Me(states[i]).admission.Evicting? && Me(states[i]).admission.victim.at <= m.at
    ensures Me(states[i]).admission.victim !in Skip(Me(states[i]))
  {
    EldestRun(states, events, i);
    InvRun(states, events, i);
    assert Step(states[i], events[i]) == Some(states[i + 1]);
  }

  /** A message that is written although eviction was skipped finds room. */
  predicate Fits(s: State, e: Event, blind: bool, b: int) {
    e == Put(0) && blind ==> |s.disk| < b
  }

  lemma {:induction false} RoomRun(states: seq<State>, events: seq<Event>, i: nat)
    requires IsRun(states, events) && Initial(states[0]) && i < |states|
    requires forall e :: e in events ==> Local(e) && Reliable(e)
    requires forall k :: 0 <= k < i ==> Fits(states[k], events[k], Blind(events, k), Bound(states[0]))
    ensures Room(states[i], Me(states[i]), Bound(states[0]), Blind(events, i)) && Unstuck(states[i])
    ensures states[i].opts == states[0].opts
  {
    hide Step, Inv, Local, Reliable, Unstuck;
    if i == 0 {
      InitialConserved(states[0]);
    } else {
      InvRun(states, events, i - 1);
      RoomRun(states, events, i - 1);
      assert Step(states[i - 1], events[i - 1]) == Some(states[i]);
      assert events[i - 1] in events;
      Stays(states[i - 1], events[i - 1], Bound(states[0]), Blind(events, i - 1));
      UnstuckStep(states[i - 1], events[i - 1]);
      SameOptions(states[i - 1], events[i - 1]);
    }
  }

  /**
   * The spool bound, over every run with reliable unlinks: it holds throughout if and only if every message that is
   * written although eviction was skipped, the files being uncountable or unlistable, finds room.
   */
  lemma SpoolBound(states: seq<State>, events: seq<Event>)
    requires IsRun(states, events) && Initial(states[0])
    requires forall e :: e in events ==> Local(e) && Reliable(e)
    ensures (forall i :: 0 <= i < |states| ==> |states[i].disk| <= Bound(states[0]))
       <==> (forall i :: 0 <= i < |events| ==> Fits(states[i], events[i], Blind(events, i), Bound(states[0])))
  {
    hide Step, Inv, Local, Reliable, Unstuck;
    var b := Bound(states[0]);
    if forall i :: 0 <= i < |events| ==> Fits(states[i], events[i], Blind(events, i), b) {
      forall i | 0 <= i < |states| ensures |states[i].disk| <= b { RoomRun(states, events, i); }
    } else {
      var i :| 0 <= i < |events| && !Fits(states[i], events[i], Blind(events, i), b);
      InvRun(states, events, i);
      PutGrows(states[i], states[i + 1]);
    }
  }

  lemma PutGrows(s: State, t: State)
    requires Inv(s) && Step(s, Put(0)) == Some(t)
    ensures |t.disk| == |s.disk| + 1
  {
    var n := Me(s).admission.name;
    assert Fate(s, Me(s), n);
    assert t.disk.Keys == s.disk.Keys + {n} && n !in s.disk.Keys;
    assert |t.disk| == |t.disk.Keys| && |s.disk| == |s.disk.Keys|;
  }

  /** Two messages in a spool with a cap of two. */
  const FULL := State(Options(0, 2), 0, map[Name(false, 0, "a") := Item(0, 0, 0), Name(false, 0, "b") := Item(0, 0, 0)],
                      map[], map[], map[Name(false, 0, "a") := 0, Name(false, 0, "b") := 0], multiset{}, multiset{},
                      map[])

  const ADMISSION: seq<Event> := [Start(0), Admits(0, Count(false)), Admits(0, Stamp(false, "c")), Put(0)]

  lemma PlayAdmission() returns (states: seq<State>)
    ensures IsRun(states, ADMISSION) && states[0] == FULL
    ensures states[4].disk.Keys == FULL.disk.Keys + {Name(false, 0, "c")}
  {
    hide Bound, Reliable, Local;
    var s1 := Step(FULL, Start(0)).value;
    var s2 := Step(s1, Admits(0, Count(false))).value;
    var s3 := Step(s2, Admits(0, Stamp(false, "c"))).value;
    assert Name(false, 0, "c") !in FULL.born.Keys by {
      assert "c"[0] != "a"[0] && "c"[0] != "b"[0];
    }
    var s4 := Step(s3, Put(0)).value;
    states := [FULL, s1, s2, s3, s4];
  }

  lemma FullIsTwo()
    ensures |FULL.disk| == 2 && Name(false, 0, "c") !in FULL.disk.Keys
  {
    assert "a"[0] != "b"[0] && "c"[0] != "a"[0] && "c"[0] != "b"[0];
    assert FULL.disk.Keys == {Name(false, 0, "a"), Name(false, 0, "b")};
    assert |FULL.disk| == |FULL.disk.Keys|;
  }

  /** The directory must be countable: a count that fails admits a message to a full spool without evicting one. */
  lemma UncountedOverflows()
    ensures exists states: seq<State> ::
              && IsRun(states, ADMISSION) && Initial(states[0]) && states[0] == FULL
              && (forall e :: e in ADMISSION ==> Local(e) && Reliable(e))
              && |states[|ADMISSION|].disk| > Bound(states[0])
  {
    FullIsTwo();
    var states := PlayAdmission();
    assert Initial(FULL);
    hide IsRun, Step;
    assert |states[4].disk| == |states[4].disk.Keys| && |FULL.disk| == |FULL.disk.Keys|;
  }
}
