/**
 * The worker of one channel as the code has it: fields updated in place under a lock, a spool directory, and methods
 * that follow enqueue, next, process, reschedule and finish statement by statement. Unlinks, rewrites, listings, loads,
 * verdicts, the clock and other goroutines are nondeterministic. Every method extends a run of the machine, so what is
 * proved of all runs holds of everything these methods do.
 */
module Workers {
  import opened Wrappers
  import opened Names
  import opened Machine
  import opened SoleWorker

  /** A notification that another goroutine will enqueue. */
  datatype Arrival = Arrival(test: bool, id: string)

  const IDLE_WAIT: int := SECOND

  /** What a scan makes of the message it looks at. */
  datatype Seen = Retried | Unread | Dropped | Waiting(until: int) | Taken(item: Item)

  /** How an attempt at a message ended. */
  datatype Attempt = Lapsed | Accepted | Rejected | Retrying | Abandoned

  /**
   * What goes wrong with a directory: whether it can be listed, and which files cannot be read, hold no message, or
   * stay.
   */
  datatype Faults = Faults(listed: bool, unreadable: set<Name>, corrupt: set<Name>, refused: set<Name>)

  /**
   * What a scan has to go by: the directory, the messages delivered but still on disk, the held times, and the clock.
   */
  datatype View = View(files: map<Name, Item>, stuck: set<Name>, hold: map<Name, int>, now: int)
  {
    /** What the scan makes of message m. */
    function Sees(m: Name, f: Faults): Seen {
      if m in stuck then Retried
      else if m !in files || m in f.unreadable then Unread
      else if m in f.corrupt then Seen.Dropped
      else if m in hold && now < hold[m] && files[m].notBefore <= hold[m] then Waiting(hold[m])
      else if now < files[m].notBefore then Waiting(files[m].notBefore)
      else Taken(files[m])
    }

    /** The file of m goes: it was delivered before or holds no message, and it unlinks. */
    predicate Clears(m: Name, f: Faults) {
      (m in stuck || (m in files && m !in f.unreadable && m in f.corrupt)) && m !in f.refused
    }

    /** What has gone once these messages have been looked at. */
    function Cleared(done: set<Name>, f: Faults): set<Name> {
      set m | m in done && Clears(m, f)
    }
  }

  function OutcomesOf(told: map<Name, seq<Outcome>>, n: Name): seq<Outcome> {
    if n in told then told[n] else []
  }

  /** There is one outcome for each settlement. */
  ghost predicate Matched(handed: multiset<Name>, logged: multiset<Name>, told: map<Name, seq<Outcome>>) {
    forall m :: handed[m] + logged[m] == |OutcomesOf(told, m)|
  }

  lemma MatchedNext(handed: multiset<Name>, logged: multiset<Name>, told: map<Name, seq<Outcome>>, n: Name, o: Outcome)
    requires Matched(handed, logged, told)
    ensures var told' := told[n := OutcomesOf(told, n) + [o]];
            && Matched(handed + multiset{n}, logged, told') && Matched(handed, logged + multiset{n}, told')
            && forall m :: OutcomesOf(told', m) == OutcomesOf(told, m) + if m == n then [o] else []
  {
  }

  /** A directory after an enqueue: without the evicted message, and with the new one if it was written. */
  function AfterEnqueue(files: map<Name, Item>, evicted: Option<Name>, put: Option<Name>, now: int): map<Name, Item> {
    var kept := if evicted.Some? then files - {evicted.value} else files;
    if put.Some? then kept[put.value := Item(now, now, 0)] else kept
  }

  lemma EvictThenPut(files: map<Name, Item>, evicted: Option<Name>, put: Option<Name>, now: int)
    ensures AfterEnqueue(AfterEnqueue(files, evicted, None, now), None, put, now) ==
              AfterEnqueue(files, evicted, put, now)
  {
  }

  /** What becomes of a message that was attempted, by the verdict and whether the worker was stopped. */
  predicate FollowsFrom(a: Attempt, v: Verdict, before: bool, after: bool) {
    match a
    case Lapsed => false
    case Accepted => v.Ok?
    case Abandoned => !v.Ok? && after
    case Rejected => v.Permanent? && !before
    case Retrying => (v.RateLimited? || v.Retryable?) && !before
  }

  /**
   * A message is put off as its verdict says at some time of the attempt, and never past its deadline: until the time a
   * 429 gives, but thirty seconds at least, or for 30 s, 1 min, 2 min and then 5 min after each failure. It is held
   * until then in memory and, if the rewrite landed, on disk.
   */
  predicate PutOff(item: Item, v: Verdict, from: int, to: int, ttl: int, held: int, file: Item, lands: bool)
    requires v.RateLimited? || v.Retryable?
  {
    var deadline := item.enqueuedAt + ttl;
    && held <= deadline
    && (match v
        case RateLimited(nb) =>
          && (held == deadline || (nb <= held && from + 30_000_000_000 <= held))
          && (held <= nb || held <= to + 30_000_000_000)
        case Retryable =>
          var pause := if item.attempts == 0 then 30_000_000_000
                       else if item.attempts == 1 then 60_000_000_000
                       else if item.attempts == 2 then 120_000_000_000
                       else 300_000_000_000;
          (held == deadline || from + pause <= held) && held <= to + pause)
    && file == if lands then Item(item.enqueuedAt, held, item.attempts + 1) else item
  }

  /** What the code writes at one time of the attempt. */
  lemma PutOffAt(item: Item, v: Verdict, from: int, t: int, to: int, ttl: int, lands: bool)
    requires (v.RateLimited? || v.Retryable?) && from <= t <= to
    ensures var next := Capped(Postponed(item, v, t), ttl);
            PutOff(item, v, from, to, ttl, next.notBefore, if lands then next else item, lands)
  {
  }

  lemma PutOffLater(item: Item, v: Verdict, from: int, to: int, later: int, ttl: int, held: int, file: Item,
                    lands: bool)
    requires (v.RateLimited? || v.Retryable?) && PutOff(item, v, from, to, ttl, held, file, lands) && to <= later
    ensures PutOff(item, v, from, later, ttl, held, file, lands)
  {
  }

  /** A message put off waits at least thirty seconds or until its deadline, and never beyond its deadline. */
  lemma PutOffWaits(item: Item, v: Verdict, from: int, to: int, ttl: int, held: int, file: Item, lands: bool)
    requires (v.RateLimited? || v.Retryable?) && PutOff(item, v, from, to, ttl, held, file, lands)
    ensures Min(from + 30 * SECOND, item.enqueuedAt + ttl) <= held <= item.enqueuedAt + ttl
    ensures file == item || file == Item(item.enqueuedAt, held, item.attempts + 1)
  {
  }

  lemma FilesSpared(files: map<Name, Item>, evicted: Option<Name>, put: Option<Name>, now: int, spared: set<Name>,
                    born: map<Name, int>)
    requires put.Some? ==> put.value !in born
    requires evicted.Some? ==> evicted.value !in spared
    requires files.Keys <= born.Keys
    ensures var after := AfterEnqueue(files, evicted, put, now);
            forall m :: m in spared ==>
              && (m in files ==> m in after && after[m] == files[m])
              && (m !in files && m in born ==> m !in after)
  {
  }

  predicate Unused(s: State, id: string) {
    forall n :: n in s.born ==> n.id != id
  }

  /** The adapter: any verdict at all. */
  method AdapterSend() returns (verdict: Verdict) {
    var accepted, permanent, limited, retryAfter: int := *, *, *, *;
    verdict := if accepted then Ok
               else if permanent then Permanent
               else if limited then RateLimited(retryAfter)
               else Retryable;
  }

  class Worker {
    const opts: Options
    var now: int
    var files: map<Name, Item>
    var inFlight: Option<Name>
    var stuck: set<Name>
    var hold: map<Name, int>
    var cancelled: bool
    var handed: multiset<Name>
    var logged: multiset<Name>
    /** The outcomes reported, handed over or logged. */
    var told: map<Name, seq<Outcome>>
    var arrivals: seq<Arrival>
    ghost var states: seq<State>
    ghost var events: seq<Event>

    /** The states passed through so far are a run of the machine by this worker and its enqueuers. */
    ghost predicate Traced()
      reads `states, `events
    {
      IsRun(states, events) && Initial(states[0]) && forall e :: e in events ==> Local(e)
    }

    ghost function Last(): State
      requires Traced()
      reads `states, `events
    {
      states[|events|]
    }

    /** The directory, the clock and the settlements are those of the machine's last state. */
    ghost predicate Outside()
      requires Traced()
      reads this
    {
      && Last().opts == opts && Last().now == now && Last().disk == files
      && Last().handed == handed && Last().logged == logged && Matched(handed, logged, told)
      && 0 in Last().workers && Expected()
    }

    /** Request ids are never used twice. */
    ghost predicate Expected()
      requires Traced()
      reads `states, `events, `arrivals
    {
      && (forall i :: 0 <= i < |arrivals| ==> Unused(Last(), arrivals[i].id))
      && (forall i, j :: 0 <= i < j < |arrivals| ==> arrivals[i].id != arrivals[j].id)
    }

    /** The worker's fields are those of w. */
    ghost predicate Inside(w: Machine.Worker)
      reads `inFlight, `stuck, `hold, `cancelled
    {
      w.inFlight == inFlight && w.stuck == stuck && w.hold == hold && w.cancelled == cancelled
    }

    ghost predicate Valid()
      reads this
    {
      Traced() && Outside() && Inside(Me(Last()))
    }

    /** Where the run goroutine stands, and the enqueuer. */
    ghost function At(): Run
      requires Traced()
      reads `states, `events
    {
      Me(Last()).run
    }

    ghost function Entry(): Admission
      requires Traced()
      reads `states, `events
    {
      Me(Last()).admission
    }

    /** What has been reported of message n, in order. */
    function Told(n: Name): seq<Outcome>
      reads `told
    {
      OutcomesOf(told, n)
    }

    /** Records that the machine takes event e. */
    ghost method Take(e: Event)
      requires Traced() && Local(e) && Step(Last(), e).Some?
      modifies this`states, this`events
      ensures Traced() && Last() == Step(old(Last()), e).value
      ensures old(Expected()) && Last().born == old(Last().born) ==> Expected()
    {
      hide Step, Local;
      ghost var next := Step(Last(), e).value;
      ghost var was := states;
      states := states + [next];
      events := events + [e];
      forall i | 0 <= i < |events| ensures Step(states[i], events[i]) == Some(states[i + 1]) {
        if i < |events| - 1 { assert Step(was[i], events[i]) == Some(was[i + 1]); }
      }
    }

    /** spool.claim: removes a file and says whether this caller is the one that removed it. */
    method Unlink(n: Name, refused: bool, ghost x: Settler) returns (u: Unlink)
      requires Valid() && (x == Runner(0) || x == Enqueuer(0)) && Target(Last(), x) == Some(n)
      modifies `files, `states, `events
      ensures Valid() && Last().born == old(Last().born)
      ensures x == Runner(0) ==> At() == AfterClaim(old(At()), u) && Entry() == old(Entry())
      ensures x == Enqueuer(0) ==> Entry() == (if u.Won? then Admission.Evicted(n) else Admitting) && At() == old(At())
      ensures u == if refused then Refused else if n in old(files) then Won else Gone
      ensures files == if u.Won? then old(files) - {n} else old(files)
    {
      hide Step, Expected, Traced, Target, AfterClaim;
      if refused {
        u := Refused;
      } else if n in files {
        files := files - {n};
        u := Won;
      } else {
        u := Gone;
      }
      ClaimFacts(Last(), x, u, n);
      Take(Claim(x, u));
    }

    /** The handing over or the logging of one outcome. */
    method Report(n: Name, outcome: Outcome) returns (consumed: bool)
      requires Matched(handed, logged, told)
      modifies `handed, `logged, `told
      ensures Matched(handed, logged, told)
      ensures handed == old(handed) + (if consumed then multiset{n} else multiset{})
      ensures logged == old(logged) + (if consumed then multiset{} else multiset{n})
      ensures forall m :: Told(m) == old(Told(m)) + if m == n then [outcome] else []
    {
      hide Matched;
      MatchedNext(handed, logged, told, n, outcome);
      consumed := *;
      if consumed {
        handed := handed + multiset{n};
      } else {
        logged := logged + multiset{n};
      }
      told := told[n := Told(n) + [outcome]];
    }

    /** settle: hands the outcome to a waiting handler, or writes the terminal log line if none is waiting. */
    method Settle(n: Name, outcome: Outcome, ghost x: Settler)
      requires Valid() && (x == Runner(0) || x == Enqueuer(0)) && Owed(Last(), x) == Some(n)
      modifies `handed, `logged, `told, `states, `events
      ensures Valid() && Last().born == old(Last().born)
      ensures x == Runner(0) ==> At() == AfterSettle(old(At())) && Entry() == old(Entry())
      ensures x == Enqueuer(0) ==> Entry() == Admitting && At() == old(At())
      ensures forall m :: Told(m) == old(Told(m)) + if m == n then [outcome] else []
    {
      hide Step, Expected, Traced, Owed, Owned, AfterSettle, Matched, Told, Worked, Admitted;
      var consumed := Report(n, outcome);
      SettleFacts(Last(), x, consumed, n);
      Take(Event.Settle(x, consumed));
    }

    /** Where the run goroutine goes from a finish that reports gone. */
    ghost function AfterFinish(r: Run, gone: bool): Run
      requires r.Finishing? || r.Dropping?
    {
      match r
      case Finishing(n, o) => if !gone && o.Delivered? then Unremoved(n) else Clearing
      case Dropping(_, todo, at) => Scanning(todo, at)
    }

    /**
     * finish: unspools a message and settles its terminal outcome. It is settled exactly when this caller removed the
     * file, or when it was delivered and the file could not be removed.
     */
    method Finish(n: Name, outcome: Outcome, refused: bool, ghost x: Settler) returns (gone: bool)
      requires Valid() && (x == Runner(0) || x == Enqueuer(0)) && Target(Last(), x) == Some(n)
      requires x == Runner(0) && At().Finishing? ==> At().outcome == outcome
      requires x == Enqueuer(0) || At().Dropping? ==> outcome != Delivered
      modifies `files, `handed, `logged, `told, `states, `events
      ensures Valid() && Last().born == old(Last().born)
      ensures gone == !refused && files == if refused then old(files) else old(files) - {n}
      ensures forall m :: Told(m) == old(Told(m))
                + if m == n && (if refused then outcome == Delivered else n in old(files)) then [outcome] else []
      ensures x == Runner(0) ==> At() == AfterFinish(old(At()), gone) && Entry() == old(Entry())
      ensures x == Enqueuer(0) ==> Entry() == Admitting && At() == old(At())
    {
      hide Step, Traced, Outside, Inside;
      var u := Unlink(n, refused, x);
      match u {
        case Refused =>
          if outcome == Delivered { Settle(n, outcome, x); }
          return false;
        case Gone =>
          return true;
        case Won =>
          Settle(n, outcome, x);
          return true;
      }
    }

    /** The worker's goroutine has taken a private step that the fields already follow. */
    ghost method TakeWork(a: Work)
      requires Traced() && Outside() && Worked(Last(), Me(Last()), a).Some?
      requires Inside(Worked(Last(), Me(Last()), a).value)
      modifies `states, `events
      ensures Valid() && Last().born == old(Last().born)
      ensures Me(Last()) == Worked(old(Last()), Me(old(Last())), a).value
    {
      hide Worked, Admitted, Looked, Expected, Traced;
      Take(Does(0, a));
    }

    /** The enqueuer has taken a private step. */
    ghost method TakeAdmit(a: Admit)
      requires Valid() && Admitted(Last(), Me(Last()), a).Some?
      modifies `states, `events
      ensures Valid() && Last().born == old(Last().born)
      ensures Me(Last()) == Admitted(old(Last()), Me(old(Last())), a).value && At() == old(At())
    {
      AdmitsInside(Last(), Me(Last()), a);
      hide Worked, Admitted, Looked, Expected, Traced;
      Take(Admits(0, a));
    }

    /** The lock w.mu is free. */
    ghost predicate Unlocked()
      requires Traced()
      reads `states, `events
    {
      Me(Last()).Unlocked()
    }

    /** What eviction must pass over. */
    function Spared(): set<Name>
      reads `stuck, `inFlight
    {
      stuck + if inFlight.Some? then {inFlight.value} else {}
    }

    /** m is the eviction victim: the oldest message that may go, and of several the first in queue order. */
    predicate IsVictim(m: Name)
      reads `files, `stuck, `inFlight
    {
      && m in files && m !in Spared()
      && forall n :: n in files && n !in Spared() && n != m ==> m.at < n.at || (m.at == n.at && Before(m, n))
    }

    /**
     * The eviction half of enqueue: a full spool loses its oldest message that may go, unless the files cannot be
     * counted or listed, or the victim does not unlink.
     */
    method Evict(counted: bool, listed: bool, refused: bool) returns (evicted: Option<Name>)
      requires Valid() && Unlocked()
      modifies `files, `handed, `logged, `told, `states, `events
      ensures Valid() && Last().born == old(Last().born) && At() == old(At()) && Entry() == Admitting
      ensures files == AfterEnqueue(old(files), evicted, None, now)
      ensures forall m :: Told(m) == old(Told(m)) + if evicted == Some(m) then [Outcome.Evicted] else []
      ensures evicted.Some? <==>
                && counted && |old(files)| >= opts.cap && listed && !refused
                && exists m :: m in old(files) && m !in Spared()
      ensures evicted.Some? ==> old(IsVictim(evicted.value))
    {
      hide Step, Traced, Expected, Worked, Oldest, Listing, Before, Outside, Inside;
      evicted := None;
      Counts(counted);
      if counted && |files| >= opts.cap {
        if listed {
          evicted := Displace(refused);
        } else {
          TakeAdmit(ChooseFails);
        }
      }
    }

    /** Eviction from a listed directory. */
    method Displace(refused: bool) returns (evicted: Option<Name>)
      requires Valid() && Entry().Choosing?
      modifies `files, `handed, `logged, `told, `states, `events
      ensures Valid() && Last().born == old(Last().born) && At() == old(At()) && Entry() == Admitting
      ensures files == AfterEnqueue(old(files), evicted, None, now)
      ensures forall m :: Told(m) == old(Told(m)) + if evicted == Some(m) then [Outcome.Evicted] else []
      ensures evicted.Some? <==> !refused && exists m :: m in old(files) && m !in Spared()
      ensures evicted.Some? ==> old(IsVictim(evicted.value))
    {
      hide Step, Traced, Expected, Worked, Oldest, Listing, Before, Outside, Inside;
      evicted := None;
      var names := ListSpool(files);
      var victim := OldestEvictable(names, Spared());
      Chooses(names);
      VictimIsOldest(names, Spared(), files.Keys);
      if victim.Some? {
        var gone := Finish(victim.value, Outcome.Evicted, refused, Enqueuer(0));
        if gone { evicted := victim; }
      }
    }

    /** The enqueuer has counted the files, if it could. */
    ghost method Counts(ok: bool)
      requires Valid() && Unlocked()
      modifies `states, `events
      ensures Valid() && Last().born == old(Last().born) && At() == old(At())
      ensures Entry() == if ok && |files| >= opts.cap then Choosing else Admitting
    {
      hide Step, Traced, Expected, Worked;
      TakeAdmit(Count(ok));
    }

    /** The enqueuer has chosen a victim from a listing. */
    ghost method Chooses(names: seq<Name>)
      requires Valid() && Entry().Choosing? && Listing(names, files.Keys)
      modifies `states, `events
      ensures Valid() && Last().born == old(Last().born) && At() == old(At())
      ensures var victim := Oldest(names, Spared());
              Entry() == if victim.Some? then Evicting(victim.value) else Admitting
    {
      hide Step, Traced, Expected, Worked, Oldest, Listing;
      TakeAdmit(Choose(names));
    }

    /** The admitting half of enqueue: stamps the message and writes it, unless the write fails. */
    method Put(test: bool, id: string, written: bool)
      requires Valid() && Entry() == Admitting && Unused(Last(), id)
      requires forall i :: 0 <= i < |arrivals| ==> arrivals[i].id != id
      modifies `files, `states, `events
      ensures Valid() && At() == old(At()) && Entry() == Nobody
      ensures files == AfterEnqueue(old(files), None, if written then Some(Name(test, now, id)) else None, now)
      ensures Name(test, now, id) !in old(Last().born)
      ensures forall m :: m in old(Last().born) ==> m in Last().born
    {
      hide Step, Traced, Worked, Expected;
      TakeAdmit(Stamp(test, id));
      if written {
        files := files[Name(test, now, id) := Item(now, now, 0)];
        TakePut(Name(test, now, id));
      } else {
        TakeAdmit(PutFails);
      }
    }

    /** What is in flight or stuck is left alone, and what has left the directory does not come back. */
    twostate predicate Spares()
      requires old(Traced()) && Traced()
      reads this
    {
      && (forall m :: m in old(Last()).born ==> m in Last().born)
      && forall m :: m in Spared() ==>
          && Told(m) == old(Told(m))
          && (m in old(files) ==> m in files && files[m] == old(files)[m])
          && (m !in old(files) && m in old(Last()).born ==> m !in files)
    }

    /** enqueue: fresh news beats stale news, and nothing is dropped without being settled. */
    method Enqueue(test: bool, id: string, counted: bool, listed: bool, refused: bool, written: bool)
        returns (evicted: Option<Name>)
      requires Valid() && Unlocked() && !InScan(At()) && Unused(Last(), id)
      requires forall i :: 0 <= i < |arrivals| ==> arrivals[i].id != id
      modifies `files, `handed, `logged, `told, `states, `events
      ensures Valid() && At() == old(At()) && Unlocked()
      ensures files == AfterEnqueue(old(files), evicted, if written then Some(Name(test, now, id)) else None, now)
      ensures forall m :: Told(m) == old(Told(m)) + if evicted == Some(m) then [Outcome.Evicted] else []
      ensures evicted.Some? <==>
                && counted && |old(files)| >= opts.cap && listed && !refused
                && exists m :: m in old(files) && m !in Spared()
      ensures evicted.Some? ==> old(IsVictim(evicted.value))
      ensures Spares()
    {
      hide Step, Traced, Outside, Inside, Worked, Admitted, AfterEnqueue, Told, Spared, Before;
      OnDiskIsBorn();
      evicted := Evict(counted, listed, refused);
      Put(test, id, written);
      ghost var put := if written then Some(Name(test, now, id)) else None;
      EvictThenPut(old(files), evicted, put, now);
      FilesSpared(old(files), evicted, put, now, Spared(), old(Last().born));
    }

    /** What is on disk was written once. */
    lemma OnDiskIsBorn()
      requires Valid()
      ensures files.Keys <= Last().born.Keys
    {
      InvRun(states, events, |events|);
      hide IsRun, Step, Initial, Local, Careful;
      forall m | m in files ensures m in Last().born { assert Fate(Last(), Me(Last()), m); }
    }

    /** The enqueuer has put file n, and the fields follow. */
    ghost method TakePut(n: Name)
      requires Traced() && Entry() == Stamped(n) && 0 in Last().workers && n !in Last().born
      requires files == Last().disk[n := Item(n.at, Last().now, 0)]
      requires Last().opts == opts && Last().now == now && Last().handed == handed && Last().logged == logged
      requires Matched(handed, logged, told)
      requires Inside(Me(Last())) && Expected()
      requires forall i :: 0 <= i < |arrivals| ==> arrivals[i].id != n.id
      modifies `states, `events
      ensures Valid() && At() == old(At()) && Entry() == Nobody
      ensures Last().born.Keys == old(Last().born).Keys + {n}
    {
      hide Worked, Admitted, Looked;
      Take(Event.Put(0));
    }

    /** Time passes. */
    method Elapse()
      requires Valid()
      modifies `now, `states, `events
      ensures Valid() && now >= old(now) && Me(Last()) == old(Me(Last())) && Last().born == old(Last().born)
    {
      hide Expected, Traced;
      var later := *;
      if later > now {
        now := later;
        Take(Tick(later));
      }
    }

    /** stop: signals the worker to exit. */
    method Stop()
      requires Valid()
      modifies `cancelled, `states, `events
      ensures Valid() && cancelled && Me(Last()) == old(Me(Last())).(cancelled := true)
      ensures Last().born == old(Last().born)
    {
      hide Expected, Traced;
      cancelled := true;
      Take(Cancel(0));
    }

    /** Another goroutine enqueues the next message. */
    method Arrive()
      requires Valid() && Unlocked() && arrivals != []
      modifies `files, `handed, `logged, `told, `arrivals, `states, `events
      ensures Valid() && Unlocked() && At() == old(At()) && |arrivals| < |old(arrivals)|
      ensures Spares()
    {
      hide Step, Traced, Inside;
      var a := arrivals[0];
      arrivals := arrivals[1..];
      var counted, listed, refused, written := *, *, *, *;
      var evicted := Enqueue(a.test, a.id, counted, listed, refused, written);
    }

    /** Whatever the other goroutines do while w.mu is free: time passes, the worker is stopped, messages arrive. */
    method Others()
      requires Valid() && Unlocked()
      modifies `now, `cancelled, `files, `handed, `logged, `told, `arrivals, `states, `events
      ensures Valid() && Unlocked() && At() == old(At())
      ensures now >= old(now) && (old(cancelled) ==> cancelled)
      ensures Spares()
    {
      hide Step, Traced, Inside, Outside, Told, Spared;
      Elapse();
      var stop := *;
      if stop { Stop(); }
      var more := *;
      while arrivals != [] && more
        invariant Valid() && Unlocked() && At() == old(At())
        invariant now >= old(now) && (old(cancelled) ==> cancelled)
        invariant Spares()
        decreases |arrivals|
      {
        ArriveLater();
        more := *;
      }
    }

    /** The next message arrives, and time passes. */
    method ArriveLater()
      requires Valid() && Unlocked() && arrivals != []
      modifies `now, `files, `handed, `logged, `told, `arrivals, `states, `events
      ensures Valid() && Unlocked() && At() == old(At()) && |arrivals| < |old(arrivals)| && now >= old(now)
      ensures Spares()
    {
      hide Step, Traced, Inside, Outside, Told, Spared;
      Arrive();
      Elapse();
    }

    function Sight(): View
      reads `files, `stuck, `hold, `now
    {
      View(files, stuck, hold, now)
    }

    /** pruneHoldLocked: forgets the not-befores of messages that have left the spool. */
    method PruneHold(names: seq<Name>)
      modifies `hold
      ensures hold == map n | n in old(hold) && n in names :: old(hold)[n]
    {
      var rest := hold.Keys;
      while rest != {}
        invariant rest <= old(hold).Keys
        invariant hold == map n | n in old(hold) && (n in names || n in rest) :: old(hold)[n]
        decreases rest
      {
        var n :| n in rest;
        rest := rest - {n};
        if n !in names { hold := hold - {n}; }
      }
    }

    /** Retries the removal of a delivered message at the head of the scan. */
    method Unstick(n: Name, refused: bool)
      requires Valid() && At().Scanning? && At().todo != [] && At().todo[0] == n && n in stuck && Entry().Nobody?
      modifies `files, `stuck, `states, `events
      ensures Valid() && At() == Scanning(old(At()).todo[1..], old(At()).at) && Entry() == Nobody
      ensures files == old(files) - (if refused then {} else {n})
      ensures stuck == old(stuck) - if refused then {} else {n}
    {
      hide Worked, Admitted, Looked, Target, Owed, Traced, Expected, Matched, OutcomesOf;
      var u := if refused then Refused else if n in files then Won else Gone;
      if !refused {
        files := files - {n};
        stuck := stuck - {n};
      }
      Take(Event.Unstick(0, u));
    }

    /** What next does with the message at the head of its scan. */
    method Visit(n: Name, f: Faults) returns (seen: Seen)
      requires Valid() && Entry().Nobody? && At().Scanning? && At().todo != [] && At().todo[0] == n && At().at == now
      modifies `files, `inFlight, `stuck, `handed, `logged, `told, `states, `events
      ensures Valid() && Entry().Nobody? && seen == old(Sight()).Sees(n, f)
      ensures At() == if seen.Taken? then Picked(n, seen.item) else Scanning(old(At()).todo[1..], now)
      ensures inFlight == if seen.Taken? then Some(n) else old(inFlight)
      ensures files == old(files) - old(Sight()).Cleared({n}, f)
      ensures stuck == old(stuck) - old(Sight()).Cleared({n}, f)
      ensures forall m :: Told(m) ==
                old(Told(m)) + if m == n && n !in old(stuck) && old(Sight()).Clears(n, f) then [CorruptFile] else []
    {
      hide Step, Traced, Expected, View.Cleared, Told, Matched;
      ClearsOne(Sight(), n, f);
      if n in stuck {
        Unstick(n, n in f.refused);
        return Retried;
      }
      if n !in files || n in f.unreadable {
        TakeWork(SkipUnreadable);
        return Unread;
      }
      if n in f.corrupt {
        DropCorrupt(n, n in f.refused);
        return Seen.Dropped;
      }
      seen := PickIfDue(n);
    }

    /** A visit to a message whose file was read and holds none. */
    method DropCorrupt(n: Name, refused: bool)
      requires Valid() && Entry().Nobody? && At().Scanning? && At().todo != [] && At().todo[0] == n
      requires n in files && n !in stuck
      modifies `files, `handed, `logged, `told, `states, `events
      ensures Valid() && Entry().Nobody? && At() == Scanning(old(At()).todo[1..], old(At()).at)
      ensures files == if refused then old(files) else old(files) - {n}
      ensures forall m :: Told(m) == old(Told(m)) + if m == n && !refused then [CorruptFile] else []
    {
      hide Step, Traced, Expected;
      TakeWork(FindCorrupt);
      var gone := Finish(n, CorruptFile, refused, Runner(0));
    }

    /** The end of a visit, for a message that could be read. */
    method PickIfDue(n: Name) returns (seen: Seen)
      requires Valid() && Entry().Nobody? && At().Scanning? && At().todo != [] && At().todo[0] == n && At().at == now
      requires n in files && n !in stuck
      modifies `inFlight, `states, `events
      ensures Valid() && Entry().Nobody?
      ensures seen == if n in hold && now < hold[n] && files[n].notBefore <= hold[n] then Waiting(hold[n])
                      else if now < files[n].notBefore then Waiting(files[n].notBefore)
                      else Taken(files[n])
      ensures At() == if seen.Taken? then Picked(n, seen.item) else Scanning(old(At()).todo[1..], now)
      ensures inFlight == if seen.Taken? then Some(n) else old(inFlight)
    {
      hide Step, Traced, Expected;
      var item := files[n];
      var notBefore := item.notBefore;
      if n in hold && hold[n] > notBefore {
        notBefore := hold[n];
      }
      if notBefore > now {
        TakeWork(SkipWaiting);
        return Waiting(notBefore);
      }
      inFlight := Some(n);
      TakeWork(Pick);
      return Taken(item);
    }

    /** The start of a scan: the directory in queue order, with the not-befores of what left it forgotten. */
    method BeginScan() returns (names: seq<Name>)
      requires Valid() && Unlocked() && At().Idle?
      modifies `hold, `states, `events
      ensures Valid() && Entry().Nobody? && At() == Scanning(names, now) && Listing(names, files.Keys)
      ensures hold == map n | n in old(hold) && n in names :: old(hold)[n]
    {
      hide Step, Traced, Expected, Listing;
      names := ListSpool(files);
      PruneHold(names);
      TakeWork(List(names));
    }

    /** A scan that does not get started, or has come to its end. */
    ghost method EndScanning(a: Work)
      requires Valid() && Entry().Nobody?
      requires (At().Idle? && a.ListFails?) || (At() == Scanning([], now) && a.EndScan?)
      modifies `states, `events
      ensures Valid() && Unlocked() && At().Idle?
    {
      TakeWork(a);
    }

    /** One round of the scan: message i is looked at, and picked or passed. */
    method Consider(names: seq<Name>, i: nat, waited: int, f: Faults, ghost sight: View)
        returns (picked: Option<Item>, wait: int)
      requires Valid() && Entry().Nobody? && i < |names| && At() == Scanning(names[i..], now)
      requires ScanTo(sight, f, names, i, Sight(), waited)
      modifies `files, `inFlight, `stuck, `handed, `logged, `told, `states, `events
      ensures Valid() && Entry().Nobody?
      ensures picked.None? ==> At() == Scanning(names[i + 1..], now) && inFlight == old(inFlight)
      ensures picked.None? ==> ScanTo(sight, f, names, i + 1, Sight(), wait)
      ensures picked.Some? ==> At() == Picked(names[i], picked.value) && inFlight == Some(names[i]) && Unlocked()
      ensures picked.Some? ==> wait == waited && Sight() == old(Sight())
      ensures picked.Some? ==> sight.Sees(names[i], f) == Taken(picked.value)
      ensures picked.Some? ==> forall m :: Told(m) == old(Told(m))
      ensures picked.None? ==>
                forall m :: Told(m) ==
                  old(Told(m)) + if m == names[i] && m !in sight.stuck && sight.Clears(m, f) then [CorruptFile] else []
    {
      hide Step, Traced, Outside, Inside, Worked, IsRun, Local, Initial, ScanTo, Expected;
      SeesSame(sight, f, names, i, Sight(), waited);
      ghost var was := Sight();
      picked, wait := None, waited;
      var seen := Visit(names[i], f);
      if seen.Waiting? && seen.until - now < wait { wait := seen.until - now; }
      if seen.Taken? {
        NotCleared(sight, f, names[i]);
        assert files - {} == files && stuck - {} == stuck;
        return Some(seen.item), wait;
      }
      assert names[i..][1..] == names[i + 1..];
      ScanGoesOn(sight, f, names, i, was, waited, Sight(), wait);
    }

    /** The scan itself: k messages are passed, and the next one picked if there is one. */
    method Scan(names: seq<Name>, f: Faults, ghost sight: View) returns (picked: Option<Item>, k: nat, wait: int)
      requires Valid() && Entry().Nobody? && At() == Scanning(names, now)
      requires ScanTo(sight, f, names, 0, Sight(), IDLE_WAIT)
      modifies `files, `inFlight, `stuck, `handed, `logged, `told, `states, `events
      ensures Valid() && Unlocked() && k <= |names| && ScanTo(sight, f, names, k, Sight(), wait)
      ensures picked.None? ==> k == |names| && At().Idle? && inFlight == old(inFlight)
      ensures picked.Some? ==> k < |names| && sight.Sees(names[k], f) == Taken(picked.value)
      ensures picked.Some? ==> At() == Picked(names[k], picked.value) && inFlight == Some(names[k])
      ensures forall m :: Told(m) == old(Told(m))
                + if m in sight.Cleared(Upto(names, k), f) && m !in sight.stuck then [CorruptFile] else []
    {
      hide Step, Traced, Outside, Inside, Worked, Listing, Before, ScanTo, Upto, View.Cleared, View.Sees;
      NothingCleared(sight, f);
      assert Upto(names, 0) == {} by { NoneUpto(names); }
      picked, k, wait := None, 0, IDLE_WAIT;
      while k < |names|
        invariant k <= |names| && picked.None? && Valid() && Entry().Nobody? && At() == Scanning(names[k..], now)
        invariant inFlight == old(inFlight) && ScanTo(sight, f, names, k, Sight(), wait)
        invariant forall m :: Told(m) == old(Told(m))
                    + if m in sight.Cleared(Upto(names, k), f) && m !in sight.stuck then [CorruptFile] else []
      {
        picked, wait := Consider(names, k, wait, f, sight);
        if picked.Some? {
          return;
        }
        ClearsNext(sight, f, names, k, Sight(), wait);
        k := k + 1;
      }
      EndScanning(EndScan);
    }

    /**
     * next: picks the first message in queue order that can be read and is due, and claims it as in flight, or says how
     * long to sleep: until the next one is due, and a second at most. On the way it retries the removal of what is
     * stuck, and drops and settles what is corrupt.
     */
    method Next(f: Faults) returns (r: Option<(Name, Item)>, wait: int)
      requires Valid() && Unlocked() && At().Idle?
      modifies `files, `inFlight, `stuck, `hold, `handed, `logged, `told, `states, `events
      ensures Valid() && Unlocked()
      ensures At() == if r.Some? then Picked(r.value.0, r.value.1) else Idle
      ensures inFlight == if r.Some? then Some(r.value.0) else old(inFlight)
      ensures hold == if f.listed then map n | n in old(hold) && n in old(files) :: old(hold)[n] else old(hold)
      ensures r.Some? ==> f.listed && IsFirstDue(old(Sight()), f, r.value.0) && r.value.1 == old(files)[r.value.0]
      ensures r.None? && f.listed ==> NoneDue(old(Sight()), f, wait)
      ensures !f.listed ==> wait == 1_000_000_000
      ensures var cleared := old(Sight()).Cleared(Reached(old(files), f, r), f);
              && files == old(files) - cleared && stuck == old(stuck) - cleared
              && forall m :: Told(m) == old(Told(m)) + if m in cleared && m !in old(stuck) then [CorruptFile] else []
    {
      hide Step, Traced, Outside, Inside, Worked, Listing, Before, ScanTo, IsFirstDue, NoneDue, Reached, View.Cleared;
      if !f.listed {
        EndScanning(ListFails);
        NothingCleared(Sight(), f);
        return None, IDLE_WAIT;
      }
      ghost var sight := Sight();
      var names := BeginScan();
      ScanStarts(sight, f, names, Sight());
      var picked, k;
      picked, k, wait := Scan(names, f, sight);
      if picked.Some? {
        r := Some((names[k], picked.value));
        ScanPicks(sight, f, names, k, Sight(), wait);
      } else {
        r := None;
        ScanEnds(sight, f, names, Sight(), wait);
      }
    }

    /** The adapter's Send has begun. */
    ghost method TakeSend()
      requires Valid() && At().Picked? && now - At().item.enqueuedAt <= opts.ttl
      modifies `states, `events
      ensures Valid() && At() == Sending(old(At()).name, old(At()).item) && Entry() == old(Entry())
      ensures Last().born == old(Last().born)
    {
      hide Worked, Admitted, Looked, Expected, Traced;
      Take(Send(0));
    }

    /** The rewrite of the message in hand has landed, and the fields follow. */
    ghost method TakeRewrite()
      requires Traced() && 0 in Last().workers && At().Rewriting? && files == Last().disk[At().name := At().item]
      requires Last().opts == opts && Last().now == now && Last().handed == handed && Last().logged == logged
      requires Matched(handed, logged, told)
      requires Inside(Me(Last())) && Expected()
      modifies `states, `events
      ensures Valid() && At() == Clearing && Entry() == old(Entry()) && Last().born == old(Last().born)
    {
      hide Worked, Admitted, Looked, Expected, Traced;
      Take(Rewrite(0));
    }

    /** Records the not-before of a message in memory. */
    method Remember(n: Name, item: Item)
      requires Valid() && Unlocked() && At() == Backing(n, item)
      modifies `hold, `states, `events
      ensures Valid() && Unlocked() && At() == Rewriting(n, Capped(item, opts.ttl))
      ensures hold == old(hold)[n := Min(item.notBefore, item.enqueuedAt + opts.ttl)]
      ensures Last().born == old(Last().born)
    {
      hide Step, Traced, Expected;
      hold := hold[n := Min(item.notBefore, item.enqueuedAt + opts.ttl)];
      TakeWork(Hold);
    }

    /** spool.rewrite: replaces the file of a message, unless the write fails. */
    method Replace(n: Name, item: Item, lands: bool)
      requires Valid() && Unlocked() && At() == Rewriting(n, item)
      modifies `files, `states, `events
      ensures Valid() && Unlocked() && At() == Clearing && Last().born == old(Last().born)
      ensures files == if lands then old(files)[n := item] else old(files)
    {
      hide Step, Traced, Expected;
      if !lands {
        TakeWork(RewriteFails);
      } else {
        files := files[n := item];
        TakeRewrite();
      }
    }

    /**
     * reschedule: caps the new not-before at the deadline, holds it in memory and rewrites the file. Whether or not
     * the rewrite lands, the message is not due before the capped time.
     */
    method Reschedule(n: Name, item: Item, lands: bool)
      requires Valid() && Unlocked() && At() == Backing(n, item) && inFlight == Some(n) && n in files
      requires n in Last().born
      modifies `now, `cancelled, `files, `hold, `handed, `logged, `told, `arrivals, `states, `events
      ensures Valid() && Unlocked() && At() == Clearing && now >= old(now) && n in Last().born
      ensures n in files && files[n] == if lands then Capped(item, opts.ttl) else old(files)[n]
      ensures n in hold && hold[n] == Min(item.notBefore, item.enqueuedAt + opts.ttl)
      ensures Told(n) == old(Told(n))
    {
      hide Step, Traced, Outside, Inside;
      Remember(n, item);
      Others();
      Replace(n, Capped(item, opts.ttl), lands);
    }

    /** Remembers a delivered message whose file would not go. */
    method Keep(n: Name)
      requires Valid() && Unlocked() && At() == Unremoved(n)
      modifies `stuck, `states, `events
      ensures Valid() && Unlocked() && At() == Clearing && stuck == old(stuck) + {n}
      ensures Last().born == old(Last().born)
    {
      hide Step, Traced, Expected;
      stuck := stuck + {n};
      TakeWork(MarkStuck);
    }

    /** Finishes the message in flight with a terminal outcome. */
    method Conclude(n: Name, outcome: Outcome, refused: bool)
      requires Valid() && Unlocked() && At() == Finishing(n, outcome) && inFlight == Some(n)
      requires n in files && n in Last().born
      modifies `now, `cancelled, `files, `stuck, `handed, `logged, `told, `arrivals, `states, `events
      ensures Valid() && Unlocked() && At() == Clearing && n in Last().born && now >= old(now)
      ensures (n in files <==> refused) && (refused ==> files[n] == old(files)[n])
      ensures refused && outcome == Delivered ==> n in stuck
      ensures Told(n) == old(Told(n)) + if !refused || outcome == Delivered then [outcome] else []
    {
      hide Step, Traced, Outside, Inside;
      Others();
      var gone := Finish(n, outcome, refused, Runner(0));
      if !gone && outcome == Delivered { Sticks(n); }
    }

    /** After a delivery whose file would not go, before the lock is taken again. */
    method Sticks(n: Name)
      requires Valid() && Unlocked() && At() == Unremoved(n) && inFlight == Some(n) && n in files && n in Last().born
      modifies `now, `cancelled, `files, `stuck, `handed, `logged, `told, `arrivals, `states, `events
      ensures Valid() && Unlocked() && At() == Clearing && n in Last().born && now >= old(now)
      ensures n in files && files[n] == old(files)[n] && n in stuck && Told(n) == old(Told(n))
    {
      hide Step, Traced, Outside, Inside;
      Others();
      Keep(n);
    }

    /** A private step of the run goroutine that changes none of the worker's fields. */
    ghost method Goes(a: Work)
      requires Valid() && Unlocked() && (a.Expire? || a.Answer? || a.Quit?) && Worked(Last(), Me(Last()), a).Some?
      modifies `states, `events
      ensures Valid() && Unlocked() && At() == Worked(old(Last()), Me(old(Last())), a).value.run
      ensures Last().born == old(Last().born)
    {
      hide Step, Traced, Expected;
      TakeWork(a);
    }

    /** The deferred end of process: nothing is in flight any more. */
    method Release()
      requires Valid() && Unlocked() && At() == Clearing
      modifies `inFlight, `states, `events
      ensures Valid() && Unlocked() && inFlight == None && At() == if cancelled then Stopped else Idle
    {
      hide Step, Traced, Expected;
      inFlight := None;
      TakeWork(Clear);
    }

    /** Puts a message off after a retryable failure or a 429. */
    method Retry(n: Name, item: Item, verdict: Verdict, lands: bool)
      requires Valid() && Unlocked() && (verdict.RateLimited? || verdict.Retryable?)
      requires At() == Backing(n, Postponed(item, verdict, now))
      requires inFlight == Some(n) && n in files && files[n] == item && n in Last().born
      modifies `now, `cancelled, `files, `hold, `handed, `logged, `told, `arrivals, `states, `events
      ensures Valid() && Unlocked() && At() == Clearing && n in Last().born && Told(n) == old(Told(n))
      ensures n in files && n in hold && now >= old(now)
      ensures var next := Capped(Postponed(item, verdict, old(now)), opts.ttl);
              hold[n] == next.notBefore && files[n] == if lands then next else item
    {
      hide Step, Traced, Outside, Inside, Postponed;
      var next := Postponed(item, verdict, now);
      Others();
      Reschedule(n, next, lands);
    }

    /** The attempt itself: the other goroutines run while the adapter sends, and then the verdict is in. */
    method SendOnce(n: Name, item: Item, verdict: Verdict)
      requires Valid() && Unlocked() && At() == Picked(n, item) && inFlight == Some(n) && n in files && files[n] == item
      requires n in Last().born && now - item.enqueuedAt <= opts.ttl
      modifies `now, `cancelled, `files, `handed, `logged, `told, `arrivals, `states, `events
      ensures Valid() && Unlocked() && n in Last().born && now >= old(now) && Told(n) == old(Told(n))
      ensures n in files && files[n] == item && (old(cancelled) ==> cancelled)
      ensures At() == if verdict.Ok? then Finishing(n, Delivered)
                      else if cancelled then Clearing
                      else if verdict.Permanent? then Finishing(n, Failed)
                      else Backing(n, Postponed(item, verdict, now))
    {
      hide Step, Traced, Outside, Inside, Postponed;
      TakeSend();
      Others();
      Answered(verdict);
    }

    /** What the worker does about one attempt and its verdict. */
    method Attempts(n: Name, item: Item, verdict: Verdict, refused: bool, lands: bool) returns (a: Attempt)
      requires Valid() && Unlocked() && At() == Picked(n, item) && inFlight == Some(n) && n in files && files[n] == item
      requires n in Last().born && now - item.enqueuedAt <= opts.ttl
      modifies `now, `cancelled, `files, `stuck, `hold, `handed, `logged, `told, `arrivals, `states, `events
      ensures Valid() && Unlocked() && At() == Clearing && !a.Lapsed? && n in Last().born && now >= old(now)
      ensures FollowsFrom(a, verdict, old(cancelled), cancelled)
      ensures n in files <==> refused || a.Abandoned? || a.Retrying?
      ensures Told(n) == old(Told(n)) + if a.Accepted? then [Delivered]
                                        else if a.Rejected? && !refused then [Failed] else []
      ensures a.Accepted? && n in files ==> n in stuck
      ensures (a.Rejected? || a.Abandoned?) && n in files ==> files[n] == item
      ensures a.Retrying? ==> n in hold && PutOff(item, verdict, old(now), now, opts.ttl, hold[n], files[n], lands)
    {
      hide Step, Traced, Outside, Inside, Postponed, Capped, Min, PutOff;
      SendOnce(n, item, verdict);
      if verdict.Ok? {
        a := Accepted;
        Conclude(n, Delivered, refused);
      } else if cancelled {
        a := Abandoned;
      } else if verdict.Permanent? {
        a := Rejected;
        Conclude(n, Failed, refused);
      } else {
        a := Retrying;
        ghost var t := now;
        Retry(n, item, verdict, lands);
        PutOffAt(item, verdict, old(now), t, now, opts.ttl, lands);
      }
    }

    /** The verdict on the attempt is in. */
    ghost method Answered(v: Verdict)
      requires Valid() && Unlocked() && At().Sending?
      modifies `states, `events
      ensures Valid() && Unlocked() && Last().born == old(Last().born)
      ensures var n, item := old(At()).name, old(At()).item;
              At() == if v.Ok? then Finishing(n, Delivered)
                      else if cancelled then Clearing
                      else if v.Permanent? then Finishing(n, Failed)
                      else Backing(n, Postponed(item, v, now))
    {
      Goes(Answer(v));
    }

    /** The end of process: other goroutines may still run before nothing is in flight, but not at this message. */
    method Retire(n: Name)
      requires Valid() && Unlocked() && At() == Clearing && inFlight == Some(n) && n in Last().born
      modifies `now, `cancelled, `files, `inFlight, `handed, `logged, `told, `arrivals, `states, `events
      ensures Valid() && Unlocked() && inFlight == None && At() == if cancelled then Stopped else Idle
      ensures (n in files <==> n in old(files)) && (n in files ==> files[n] == old(files)[n])
      ensures Told(n) == old(Told(n)) && (old(cancelled) ==> cancelled) && now >= old(now)
    {
      hide Step, Traced, Outside, Inside;
      Others();
      Release();
    }

    /**
     * process: expires the message or attempts it once. A message is settled exactly when it is gone or was accepted;
     * one that was accepted and is still on disk is stuck; one that is to be retried is held until the time its verdict
     * gives, rewrite or no rewrite; one whose attempt was cancelled is left untouched.
     */
    method Process(n: Name, item: Item, verdict: Verdict, refused: bool, lands: bool) returns (a: Attempt)
      requires Valid() && Unlocked() && At() == Picked(n, item) && inFlight == Some(n)
      requires n in files && files[n] == item && n in Last().born
      modifies `now, `cancelled, `files, `inFlight, `stuck, `hold, `handed, `logged, `told, `arrivals, `states, `events
      ensures Valid() && Unlocked() && inFlight == None && At() == if cancelled then Stopped else Idle
      ensures a.Lapsed? <==> old(now) - item.enqueuedAt > opts.ttl
      ensures a.Lapsed? || FollowsFrom(a, verdict, old(cancelled), cancelled)
      ensures n in files <==> refused || a.Abandoned? || a.Retrying?
      ensures Told(n) == old(Told(n)) + if a.Accepted? then [Delivered]
                                        else if a.Lapsed? && !refused then [Expired]
                                        else if a.Rejected? && !refused then [Failed] else []
      ensures a.Accepted? && n in files ==> n in stuck
      ensures (a.Lapsed? || a.Rejected? || a.Abandoned?) && n in files ==> files[n] == item
      ensures a.Retrying? ==> n in hold && PutOff(item, verdict, old(now), now, opts.ttl, hold[n], files[n], lands)
    {
      hide Step, Traced, Outside, Inside, PutOff;
      if now - item.enqueuedAt > opts.ttl {
        a := Lapsed;
        Lapses(n);
        Conclude(n, Expired, refused);
      } else {
        a := Attempts(n, item, verdict, refused, lands);
      }
      ghost var until := now;
      Retire(n);
      if a.Retrying? { PutOffLater(item, verdict, old(now), until, now, opts.ttl, hold[n], files[n], lands); }
    }

    /** The message is past its deadline. */
    ghost method Lapses(n: Name)
      requires Valid() && Unlocked() && At().Picked? && At().name == n && now - At().item.enqueuedAt > opts.ttl
      modifies `states, `events
      ensures Valid() && Unlocked() && At() == Finishing(n, Expired) && Last().born == old(Last().born)
    {
      Goes(Expire);
    }

    /** The worker notices, between attempts, that it was told to exit. */
    ghost method Quits()
      requires Valid() && Unlocked() && At().Idle? && cancelled
      modifies `states, `events
      ensures Valid() && At() == Stopped
    {
      Goes(Quit);
    }

    /** Everything this worker and its enqueuers have done so far settled no message twice. */
    lemma SettledOnce()
      requires Valid()
      ensures forall n :: |Told(n)| <= 1
    {
      assert |events| < |states|;
      hide IsRun, Step, Initial, Local;
      forall n ensures |Told(n)| <= 1 { FaultTolerance(states, events, |events|, n); }
    }

    /** run: any number of rounds of the delivery loop, until the worker is stopped. */
    method RunLoop(rounds: nat)
      requires Valid() && Unlocked() && At().Idle?
      modifies this
      ensures Valid() && forall n :: |Told(n)| <= 1
    {
      hide Step, Traced, Outside, Inside;
      for k := 0 to rounds
        invariant Valid() && Unlocked() && At().Idle?
      {
        var listed, unreadable, corrupt, refusals := *, *, *, *;
        var r, wait := Next(Faults(listed, unreadable, corrupt, refusals));
        if r.Some? {
          OnDiskIsBorn();
          Others();
          var verdict := AdapterSend();
          var refused, lands := *, *;
          var a := Process(r.value.0, r.value.1, verdict, refused, lands);
          if cancelled { break; }
        }
        Others();
        var woken := *;
        if cancelled && !woken {
          Quits();
          break;
        }
      }
      SettledOnce();
    }

    /** newWorker, over whatever the directory holds. */
    constructor (opts: Options, now: int, files: map<Name, Item>, written: map<Name, int>, arrivals: seq<Arrival>)
      requires written.Keys == files.Keys
      requires forall i, n :: 0 <= i < |arrivals| && n in files ==> n.id != arrivals[i].id
      requires forall i, j :: 0 <= i < j < |arrivals| ==> arrivals[i].id != arrivals[j].id
      ensures Valid() && Unlocked() && At().Idle? && this.files == files && this.arrivals == arrivals
    {
      this.opts, this.now, this.files, this.arrivals := opts, now, files, arrivals;
      inFlight, stuck, hold, cancelled := None, {}, map[], false;
      handed, logged, told := multiset{}, multiset{}, map[];
      ghost var s := State(opts, now, files, map[], map[], written, multiset{}, multiset{}, map[]);
      states := [s, Step(s, Start(0)).value];
      events := [Start(0)];
    }
  }

  /** Message n is the first in queue order that is not stuck, can be read, and is due. */
  predicate IsFirstDue(v: View, f: Faults, n: Name) {
    && n in v.files && v.Sees(n, f).Taken?
    && forall m :: m in v.files && Before(m, n) ==> !v.Sees(m, f).Taken?
  }

  /** No message is due, and wait ends when the next one is, or after a second. */
  predicate NoneDue(v: View, f: Faults, wait: int) {
    && (forall m :: m in v.files ==> !v.Sees(m, f).Taken?)
    && wait <= 1_000_000_000
    && (forall m :: m in v.files && v.Sees(m, f).Waiting? ==> wait <= v.Sees(m, f).until - v.now)
    && (wait == 1_000_000_000
        || exists m :: m in v.files && v.Sees(m, f).Waiting? && wait == v.Sees(m, f).until - v.now)
  }

  /** The messages a scan gets past: all of them, or those before the one it picks. */
  function Reached(files: map<Name, Item>, f: Faults, r: Option<(Name, Item)>): set<Name> {
    set m | m in files && f.listed && (r.Some? ==> Before(m, r.value.0))
  }

  function Upto(names: seq<Name>, i: nat): set<Name>
    requires i <= |names|
  {
    set j | 0 <= j < i :: names[j]
  }

  /** What a scan that set out from v has left once it has looked at these messages. */
  predicate ScanLeaves(v: View, f: Faults, done: set<Name>, left: View) {
    && left.files == v.files - v.Cleared(done, f) && left.stuck == v.stuck - v.Cleared(done, f)
    && left.hold == (map n | n in v.hold && n in v.files :: v.hold[n]) && left.now == v.now
  }

  /** Where a scan that set out from v stands after i names. */
  ghost predicate ScanTo(v: View, f: Faults, names: seq<Name>, i: nat, left: View, wait: int) {
    && i <= |names| && Listing(names, v.files.Keys) && ScanLeaves(v, f, Upto(names, i), left)
    && (forall j :: 0 <= j < i ==> !v.Sees(names[j], f).Taken?)
    && wait <= IDLE_WAIT
    && (forall j :: 0 <= j < i && v.Sees(names[j], f).Waiting? ==> wait <= v.Sees(names[j], f).until - v.now)
    && (wait == IDLE_WAIT
        || exists j :: 0 <= j < i && v.Sees(names[j], f).Waiting? && wait == v.Sees(names[j], f).until - v.now)
  }

  lemma ScanStarts(v: View, f: Faults, names: seq<Name>, left: View)
    requires Listing(names, v.files.Keys) && left.files == v.files && left.stuck == v.stuck && left.now == v.now
    requires left.hold == map n | n in v.hold && n in names :: v.hold[n]
    ensures ScanTo(v, f, names, 0, left, IDLE_WAIT) && v.Cleared(Upto(names, 0), f) == {}
  {
    assert v.files - {} == v.files && v.stuck - {} == v.stuck;
  }

  lemma Ahead(v: View, f: Faults, names: seq<Name>, i: nat)
    requires i < |names| && Listing(names, v.files.Keys)
    ensures names[i] in v.files && names[i] !in Upto(names, i)
    ensures Upto(names, i + 1) == Upto(names, i) + {names[i]}
    ensures v.Cleared(Upto(names, i + 1), f) == v.Cleared(Upto(names, i), f) + v.Cleared({names[i]}, f)
  {
    assert names[i] in names;
    BeforeIrreflexive(names[i]);
  }

  /** What has been looked at does not change what the scan makes of the next message. */
  lemma SeesSame(v: View, f: Faults, names: seq<Name>, i: nat, left: View, wait: int)
    requires i < |names| && ScanTo(v, f, names, i, left, wait)
    ensures left.Sees(names[i], f) == v.Sees(names[i], f) && left.Clears(names[i], f) == v.Clears(names[i], f)
    ensures left.Cleared({names[i]}, f) == v.Cleared({names[i]}, f)
    ensures (names[i] in left.stuck <==> names[i] in v.stuck) && left.now == v.now
    ensures names[i] !in v.Cleared(Upto(names, i), f)
  {
    Ahead(v, f, names, i);
    hide Listing;
  }

  lemma ScanGoesOn(v: View, f: Faults, names: seq<Name>, i: nat, was: View, waited: int, left: View, wait: int)
    requires i < |names| && ScanTo(v, f, names, i, was, waited) && !v.Sees(names[i], f).Taken?
    requires left.files == was.files - v.Cleared({names[i]}, f) && left.stuck == was.stuck - v.Cleared({names[i]}, f)
    requires left.hold == was.hold && left.now == was.now
    requires var seen := v.Sees(names[i], f);
             wait == if seen.Waiting? && seen.until - v.now < waited then seen.until - v.now else waited
    ensures ScanTo(v, f, names, i + 1, left, wait)
  {
    hide View.Sees;
    Ahead(v, f, names, i);
    assert v.files - v.Cleared(Upto(names, i), f) - v.Cleared({names[i]}, f) ==
      v.files - v.Cleared(Upto(names, i + 1), f);
    assert v.stuck - v.Cleared(Upto(names, i), f) - v.Cleared({names[i]}, f) ==
      v.stuck - v.Cleared(Upto(names, i + 1), f);
    hide Listing;
  }

  lemma ClearsOne(v: View, n: Name, f: Faults)
    ensures v.files - v.Cleared({n}, f) == if v.Clears(n, f) then v.files - {n} else v.files
    ensures v.stuck - v.Cleared({n}, f) == if v.Clears(n, f) then v.stuck - {n} else v.stuck
  {
    assert v.Cleared({n}, f) == if v.Clears(n, f) then {n} else {};
    assert v.files - {} == v.files && v.stuck - {} == v.stuck;
  }

  lemma NothingCleared(v: View, f: Faults)
    ensures v.Cleared({}, f) == {} && v.files - {} == v.files && v.stuck - {} == v.stuck
    ensures !f.listed ==> Reached(v.files, f, None) == {}
  {
  }

  lemma NoneUpto(names: seq<Name>)
    ensures Upto(names, 0) == {}
  {
  }

  lemma ClearsNext(v: View, f: Faults, names: seq<Name>, i: nat, left: View, wait: int)
    requires i < |names| && ScanTo(v, f, names, i + 1, left, wait)
    ensures forall m :: m in v.Cleared(Upto(names, i + 1), f) <==>
              m in v.Cleared(Upto(names, i), f) || (m == names[i] && v.Clears(m, f))
    ensures names[i] !in v.Cleared(Upto(names, i), f)
  {
    Ahead(v, f, names, i);
    hide Listing;
  }

  /** A message that is picked is not settled by the scan. */
  lemma NotCleared(v: View, f: Faults, n: Name)
    requires v.Sees(n, f).Taken?
    ensures !v.Clears(n, f) && v.Cleared({n}, f) == {}
  {
  }

  lemma ScanPicks(v: View, f: Faults, names: seq<Name>, i: nat, was: View, wait: int)
    requires i < |names| && ScanTo(v, f, names, i, was, wait) && v.Sees(names[i], f).Taken? && f.listed
    ensures IsFirstDue(v, f, names[i]) && ScanLeaves(v, f, Upto(names, i), was)
    ensures v.Cleared({names[i]}, f) == {}
    ensures Reached(v.files, f, Some((names[i], v.files[names[i]]))) == Upto(names, i)
  {
    Ahead(v, f, names, i);
    hide Before;
    forall m | m in v.files ensures Before(m, names[i]) <==> m in Upto(names, i) {
      var j :| 0 <= j < |names| && names[j] == m;
      if j == i { BeforeIrreflexive(m); }
      if j > i && Before(m, names[i]) { BeforeTransitive(m, names[i], m); BeforeIrreflexive(m); }
    }
  }

  lemma ScanEnds(v: View, f: Faults, names: seq<Name>, left: View, wait: int)
    requires ScanTo(v, f, names, |names|, left, wait) && f.listed
    ensures NoneDue(v, f, wait) && ScanLeaves(v, f, Upto(names, |names|), left)
    ensures Reached(v.files, f, None) == Upto(names, |names|)
  {
    hide Before;
    forall m | m in v.files ensures m in Upto(names, |names|) && !v.Sees(m, f).Taken? {
      var j :| 0 <= j < |names| && names[j] == m;
    }
    forall m | m in v.files && v.Sees(m, f).Waiting? ensures wait <= v.Sees(m, f).until - v.now {
      var j :| 0 <= j < |names| && names[j] == m;
    }
    forall j | 0 <= j < |names| ensures names[j] in v.files { assert names[j] in names; }
  }

  lemma VictimIsOldest(names: seq<Name>, skip: set<Name>, files: set<Name>)
    requires Listing(names, files)
    ensures Oldest(names, skip).None? <==> forall m :: m in files ==> m in skip
    ensures Oldest(names, skip).Some? ==>
              var v := Oldest(names, skip).value;
              && v in files && v !in skip
              && forall m :: m in files && m !in skip && m != v ==> v.at < m.at || (v.at == m.at && Before(v, m))
  {
    hide Before;
    var p := OldestAt(names, skip, |names|);
    forall m | m in files && m !in skip
      ensures p.Some?
      ensures m != names[p.value] ==>
                names[p.value].at < m.at || (names[p.value].at == m.at && Before(names[p.value], m)) {
      var i :| 0 <= i < |names| && names[i] == m;
    }
    if p.Some? { assert names[p.value] in names; }
  }

  /** What is left alone by a step in which only one of the worker's goroutines moves. */
  predicate Moved(s: State, t: State) {
    && t.opts == s.opts && t.now == s.now && t.born == s.born && 0 in t.workers
    && Me(t) == Me(s).(run := Me(t).run, admission := Me(t).admission)
  }

  lemma ClaimFacts(s: State, x: Settler, u: Unlink, n: Name)
    requires (x == Runner(0) || x == Enqueuer(0)) && Target(s, x) == Some(n) && Possible(s, n, u)
    ensures Step(s, Claim(x, u)).Some?
    ensures var t := Step(s, Claim(x, u)).value;
            && Moved(s, t) && t.disk == (if u.Won? then s.disk - {n} else s.disk)
            && t.handed == s.handed && t.logged == s.logged
            && (x == Runner(0) ==> Me(t).run == AfterClaim(Me(s).run, u) && Me(t).admission == Me(s).admission)
            && (x == Enqueuer(0) ==> Me(t).run == Me(s).run)
            && (x == Enqueuer(0) ==> Me(t).admission == if u.Won? then Admission.Evicted(n) else Admitting)
  {
    hide Worked, Admitted, Looked;
  }

  lemma SettleFacts(s: State, x: Settler, c: bool, n: Name)
    requires (x == Runner(0) || x == Enqueuer(0)) && Owed(s, x) == Some(n)
    ensures Step(s, Settle(x, c)).Some?
    ensures var t := Step(s, Settle(x, c)).value;
            && Moved(s, t) && t.disk == s.disk
            && t.handed == (if c then s.handed + multiset{n} else s.handed)
            && t.logged == (if c then s.logged else s.logged + multiset{n})
            && (x == Runner(0) ==> Me(t).run == AfterSettle(Me(s).run) && Me(t).admission == Me(s).admission)
            && (x == Enqueuer(0) ==> Me(t).run == Me(s).run && Me(t).admission == Admitting)
  {
    hide Worked, Admitted, Looked;
  }

  lemma AdmitsInside(s: State, w: Machine.Worker, a: Admit)
    requires Admitted(s, w, a).Some?
    ensures Admitted(s, w, a).value == w.(admission := Admitted(s, w, a).value.admission)
  {
  }

  lemma InsertKeeps(names: seq<Name>, n: Name, i: nat, files: set<Name>)
    requires Listing(names, files) && n !in files && i <= |names|
    requires forall j :: 0 <= j < i ==> Before(names[j], n)
    requires i < |names| ==> !Before(names[i], n)
    ensures Listing(names[..i] + [n] + names[i..], files + {n})
  {
    hide Before;
    var r := names[..i] + [n] + names[i..];
    InsertedMember(names, n, i);
    InsertedBefore(names, n, i, files);
    forall a, b | 0 <= a < b < |r| ensures Before(r[a], r[b]) {
      assert a != i && b != i ==>
        r[a] == names[if a < i then a else a - 1] && r[b] == names[if b < i then b else b - 1];
    }
  }

  lemma InsertedMember(names: seq<Name>, n: Name, i: nat)
    requires i <= |names|
    ensures forall m :: m in names[..i] + [n] + names[i..] <==> m in names || m == n
  {
    assert names == names[..i] + names[i..];
  }

  lemma InsertedBefore(names: seq<Name>, n: Name, i: nat, files: set<Name>)
    requires Listing(names, files) && n !in files && i <= |names|
    requires i < |names| ==> !Before(names[i], n)
    ensures forall k :: i <= k < |names| ==> Before(n, names[k])
  {
    hide Before;
    if i < |names| {
      assert names[i] in names;
      BeforeTotal(names[i], n);
      forall k | i < k < |names| ensures Before(n, names[k]) { BeforeTransitive(n, names[i], names[k]); }
    }
  }

  /** spool.list: the directory in queue order. */
  method ListSpool(files: map<Name, Item>) returns (names: seq<Name>)
    ensures Listing(names, files.Keys)
  {
    names := [];
    var rest := files.Keys;
    while rest != {}
      invariant rest <= files.Keys && Listing(names, files.Keys - rest)
      decreases rest
    {
      var n :| n in rest;
      var i := 0;
      while i < |names| && Before(names[i], n)
        invariant i <= |names|
        invariant forall j :: 0 <= j < i ==> Before(names[j], n)
      {
        i := i + 1;
      }
      InsertKeeps(names, n, i, files.Keys - rest);
      names := names[..i] + [n] + names[i..];
      rest := rest - {n};
      assert files.Keys - rest == (files.Keys - rest - {n}) + {n};
    }
  }

  /** spool.oldestEvictable: the oldest name outside skip, by a scan of the listing. */
  method OldestEvictable(names: seq<Name>, skip: set<Name>) returns (victim: Option<Name>)
    ensures victim == Oldest(names, skip)
  {
    victim := None;
    var oldest := 0;
    for k := 0 to |names|
      invariant victim == (var p := OldestAt(names, skip, k); if p.None? then None else Some(names[p.value]))
      invariant victim.Some? ==> oldest == victim.value.at
    {
      var n := names[k];
      if n !in skip && (victim == None || n.at < oldest) {
        victim := Some(n);
        oldest := n.at;
      }
    }
  }
}
