/**
 * The outbox of one channel as a state machine. One spool directory is shared by any number of workers (the live one
 * and retired ones that outran their stop grace), by the enqueuer that holds a worker's lock, and by the engine's
 * sweeps: the reaper of a disabled channel and the purge of a removed one. Every step does at most one thing to the
 * directory, each of those may fail, and the steps of different goroutines interleave in any order.
 */
module Machine {
  import opened Wrappers
  import opened Names

  const SECOND: int := 1_000_000_000
  const RATE_LIMIT_FLOOR: int := 30 * SECOND

  /** 30s, 1m, 2m, then 5m. */
  function Backoff(attempts: int): (d: int)
    ensures 30 * SECOND <= d <= 300 * SECOND
  {
    if attempts <= 1 then 30 * SECOND
    else if attempts == 2 then 60 * SECOND
    else if attempts == 3 then 120 * SECOND
    else 300 * SECOND
  }

  function Max(a: int, b: int): int {
    if a < b then b else a
  }

  function Min(a: int, b: int): int {
    if a < b then a else b
  }

  datatype Options = Options(ttl: int, cap: int)

  datatype Item = Item(enqueuedAt: int, notBefore: int, attempts: nat)

  datatype Outcome = Delivered | Failed | Expired | Evicted | CorruptFile | Removed

  datatype Verdict = Ok | Permanent | RateLimited(notBefore: int) | Retryable

  /** Where a worker's run goroutine stands. It holds the worker's lock from List to Pick or EndScan. */
  datatype Run =
    | Idle
    | Scanning(todo: seq<Name>, at: int)
    | Dropping(name: Name, todo: seq<Name>, at: int)
    | Dropped(name: Name, todo: seq<Name>, at: int)
    | Picked(name: Name, item: Item)
    | Sending(name: Name, item: Item)
    | Backing(name: Name, item: Item)
    | Rewriting(name: Name, item: Item)
    | Finishing(name: Name, outcome: Outcome)
    | Finished(name: Name, outcome: Outcome)
    | Owing(name: Name)
    | Unremoved(name: Name)
    | Clearing
    | Stopped

  /** Where the enqueuer that holds the worker's lock stands. */
  datatype Admission =
    | Nobody
    | Choosing
    | Evicting(victim: Name)
    | Evicted(victim: Name)
    | Admitting
    | Stamped(name: Name)

  datatype Worker = Worker(run: Run, admission: Admission, inFlight: Option<Name>, stuck: set<Name>,
                           hold: map<Name, int>, cancelled: bool)
  {
    /** The lock w.mu is free. */
    predicate Unlocked() {
      admission.Nobody? && !InScan(run)
    }
  }

  datatype Kind = Reap | Purge

  /** Where a sweep of the directory stands. */
  datatype Sweep =
    | Sweeping(kind: Kind, todo: seq<Name>)
    | Claiming(kind: Kind, todo: seq<Name>, name: Name, outcome: Outcome)
    | Claimed(kind: Kind, todo: seq<Name>, name: Name, outcome: Outcome)

  /**
   * The whole outbox. `born` records when each file was first written, `handed` and `logged` how often each was
   * settled (by an outcome handed to a waiting handler, or by a terminal log line), `sends` when each was sent.
   */
  datatype State = State(opts: Options, now: int, disk: map<Name, Item>, workers: map<nat, Worker>,
                         sweeps: map<nat, Sweep>, born: map<Name, int>, handed: multiset<Name>,
                         logged: multiset<Name>, sends: map<Name, seq<int>>)
  {
    function Settled(n: Name): nat {
      handed[n] + logged[n]
    }

    function SendsOf(n: Name): seq<int> {
      if n in sends then sends[n] else []
    }
  }

  /** Whoever may unlink a file and settle it: a worker's run goroutine, its enqueuer, or a sweep. */
  datatype Settler = Runner(w: nat) | Enqueuer(w: nat) | Sweeper(x: nat)

  /** What os.Remove reports to claim. */
  datatype Unlink = Won | Gone | Refused

  datatype Load = Readable | Corrupt | Unreadable

  /** The steps of a worker's own goroutine that touch nothing outside the worker. */
  datatype Work =
    | List(names: seq<Name>)
    | ListFails
    | SkipUnreadable
    | FindCorrupt
    | SkipWaiting
    | Pick
    | EndScan
    | Expire
    | Answer(verdict: Verdict)
    | Hold
    | RewriteFails
    | MarkStuck
    | Clear
    | Quit

  /** The steps of an enqueuer that touch nothing outside the worker. */
  datatype Admit =
    | Count(ok: bool)
    | Choose(names: seq<Name>)
    | ChooseFails
    | Stamp(test: bool, id: string)
    | PutFails

  datatype Event =
    | Tick(now: int)
    | Start(w: nat)
    | Cancel(w: nat)
    | Does(w: nat, work: Work)
    | Admits(w: nat, admit: Admit)
    | Put(w: nat)
    | Send(w: nat)
    | Rewrite(w: nat)
    | Unstick(w: nat, unlink: Unlink)
    | Claim(settler: Settler, unlink: Unlink)
    | Settle(settler: Settler, consumed: bool)
    | StartSweep(x: nat, kind: Kind, names: seq<Name>)
    | Look(x: nat, load: Load)
    | EndSweep(x: nat)

  const NEW_WORKER := Worker(Idle, Nobody, None, {}, map[], false)

  /** When a spooled item may next be attempted: the later of what is on disk and what the worker holds in memory. */
  function NotBefore(w: Worker, n: Name, item: Item): int {
    if n in w.hold then Max(w.hold[n], item.notBefore) else item.notBefore
  }

  /** The attempt state written after a retryable failure or a 429, before the cap at the deadline. */
  function Postponed(item: Item, verdict: Verdict, now: int): Item
    requires verdict.RateLimited? || verdict.Retryable?
  {
    var next := item.(attempts := item.attempts + 1);
    match verdict
    case RateLimited(nb) => next.(notBefore := Max(nb, now + RATE_LIMIT_FLOOR))
    case Retryable => next.(notBefore := now + Backoff(next.attempts))
  }

  function Capped(item: Item, ttl: int): Item {
    item.(notBefore := Min(item.notBefore, item.enqueuedAt + ttl))
  }

  /** What a private step makes of a worker, or None where the code cannot take it. */
  ghost function Worked(s: State, w: Worker, a: Work): Option<Worker> {
    match a
    case List(names) =>
      if w.run.Idle? && w.Unlocked() && Listing(names, s.disk.Keys) then
        Some(w.(run := Scanning(names, s.now), hold := map n | n in w.hold && n in names :: w.hold[n]))
      else None
    case ListFails => if w.run.Idle? && w.Unlocked() then Some(w) else None
    case SkipUnreadable =>
      if w.run.Scanning? && w.run.todo != [] && w.run.todo[0] !in w.stuck then
        Some(w.(run := Scanning(w.run.todo[1..], w.run.at)))
      else None
    case FindCorrupt =>
      if w.run.Scanning? && w.run.todo != [] && w.run.todo[0] !in w.stuck && w.run.todo[0] in s.disk then
        Some(w.(run := Dropping(w.run.todo[0], w.run.todo[1..], w.run.at)))
      else None
    case SkipWaiting =>
      if w.run.Scanning? && w.run.todo != [] && w.run.todo[0] !in w.stuck && w.run.todo[0] in s.disk
         && NotBefore(w, w.run.todo[0], s.disk[w.run.todo[0]]) > w.run.at then
        Some(w.(run := Scanning(w.run.todo[1..], w.run.at)))
      else None
    case Pick =>
      if w.run.Scanning? && w.run.todo != [] && w.run.todo[0] !in w.stuck && w.run.todo[0] in s.disk
         && NotBefore(w, w.run.todo[0], s.disk[w.run.todo[0]]) <= w.run.at then
        Some(w.(run := Picked(w.run.todo[0], s.disk[w.run.todo[0]]), inFlight := Some(w.run.todo[0])))
      else None
    case EndScan => if w.run.Scanning? && w.run.todo == [] then Some(w.(run := Idle)) else None
    case Expire =>
      if w.run.Picked? && s.now - w.run.item.enqueuedAt > s.opts.ttl then
        Some(w.(run := Finishing(w.run.name, Expired)))
      else None
    case Answer(v) =>
      if !w.run.Sending? then None
      else if v.Ok? then Some(w.(run := Finishing(w.run.name, Delivered)))
      else if w.cancelled then Some(w.(run := Clearing))
      else if v.Permanent? then Some(w.(run := Finishing(w.run.name, Failed)))
      else Some(w.(run := Backing(w.run.name, Postponed(w.run.item, v, s.now))))
    case Hold =>
      if w.run.Backing? && w.Unlocked() then
        var item := Capped(w.run.item, s.opts.ttl);
        Some(w.(run := Rewriting(w.run.name, item), hold := w.hold[w.run.name := item.notBefore]))
      else None
    case RewriteFails => if w.run.Rewriting? then Some(w.(run := Clearing)) else None
    case MarkStuck =>
      if w.run.Unremoved? && w.Unlocked() then Some(w.(run := Clearing, stuck := w.stuck + {w.run.name})) else None
    case Clear =>
      if w.run.Clearing? && w.Unlocked() then
        Some(w.(run := if w.cancelled then Stopped else Idle, inFlight := None))
      else None
    case Quit => if w.run.Idle? && w.cancelled then Some(w.(run := Stopped)) else None
  }

  /** The names eviction passes over: what is in flight and what is delivered but stuck on disk. */
  function Skip(w: Worker): set<Name> {
    w.stuck + if w.inFlight.Some? then {w.inFlight.value} else {}
  }

  /** What a private step of an enqueuer makes of the worker it holds the lock of. */
  ghost function Admitted(s: State, w: Worker, a: Admit): Option<Worker> {
    match a
    case Count(ok) =>
      if w.Unlocked() then Some(w.(admission := if ok && |s.disk| >= s.opts.cap then Choosing else Admitting)) else None
    case Choose(names) =>
      if w.admission.Choosing? && Listing(names, s.disk.Keys) then
        var victim := Oldest(names, Skip(w));
        Some(w.(admission := if victim.Some? then Evicting(victim.value) else Admitting))
      else None
    case ChooseFails => if w.admission.Choosing? then Some(w.(admission := Admitting)) else None
    case Stamp(test, id) =>
      if w.admission.Admitting? then Some(w.(admission := Stamped(Name(test, s.now, id)))) else None
    case PutFails => if w.admission.Stamped? then Some(w.(admission := Nobody)) else None
  }

  /** The file a settler is about to unlink. */
  function Target(s: State, x: Settler): Option<Name> {
    match x
    case Runner(w) =>
      if w in s.workers && (s.workers[w].run.Finishing? || s.workers[w].run.Dropping?) then Some(s.workers[w].run.name)
      else None
    case Enqueuer(w) =>
      if w in s.workers && s.workers[w].admission.Evicting? then Some(s.workers[w].admission.victim) else None
    case Sweeper(x) => if x in s.sweeps && s.sweeps[x].Claiming? then Some(s.sweeps[x].name) else None
  }

  /** The file a settler has unlinked and not settled yet. */
  function Owned(s: State, x: Settler): Option<Name> {
    match x
    case Runner(w) =>
      if w in s.workers && (s.workers[w].run.Finished? || s.workers[w].run.Dropped?) then Some(s.workers[w].run.name)
      else None
    case Enqueuer(w) =>
      if w in s.workers && s.workers[w].admission.Evicted? then Some(s.workers[w].admission.victim) else None
    case Sweeper(x) => if x in s.sweeps && s.sweeps[x].Claimed? then Some(s.sweeps[x].name) else None
  }

  /** The file a settler owes an outcome for: the one it owns, or one it delivered and could not unlink. */
  function Owed(s: State, x: Settler): Option<Name> {
    if x.Runner? && x.w in s.workers && s.workers[x.w].run.Owing? then Some(s.workers[x.w].run.name) else Owned(s, x)
  }

  /** Where a run goroutine goes from an unlink attempt. */
  function AfterClaim(r: Run, u: Unlink): Run
    requires r.Finishing? || r.Dropping?
  {
    match r
    case Finishing(n, o) => if u.Won? then Finished(n, o) else if u.Refused? && o.Delivered? then Owing(n) else Clearing
    case Dropping(n, todo, at) => if u.Won? then Dropped(n, todo, at) else Scanning(todo, at)
  }

  /** Where a run goroutine goes once it has settled. */
  function AfterSettle(r: Run): Run
    requires r.Finished? || r.Dropped? || r.Owing?
  {
    match r
    case Finished(_, _) => Clearing
    case Dropped(_, todo, at) => Scanning(todo, at)
    case Owing(n) => Unremoved(n)
  }

  function AfterSweepClaim(y: Sweep, u: Unlink): Sweep
    requires y.Claiming?
  {
    if u.Won? then Claimed(y.kind, y.todo, y.name, y.outcome) else Sweeping(y.kind, y.todo)
  }

  /** The run goroutine has loaded an item and has no verdict on it that ends it. */
  predicate InHand(r: Run) {
    r.Picked? || r.Sending? || r.Backing? || r.Rewriting?
  }

  /** The run goroutine is inside a scan that began at time r.at. */
  predicate InScan(r: Run) {
    r.Scanning? || r.Dropping? || r.Dropped?
  }

  /** The run goroutine has a terminal outcome for its message. */
  predicate InEnd(r: Run) {
    r.Finishing? || r.Finished?
  }

  /** Worker b is worker a with a goroutine moved on by an unlink or a settlement: it picked nothing up. */
  predicate Resumes(a: Worker, b: Worker) {
    && a.inFlight == b.inFlight && a.stuck == b.stuck && a.hold == b.hold && a.cancelled == b.cancelled
    && (b.run == a.run || !InHand(b.run))
    && (InScan(b.run) ==> InScan(a.run) && b.run.at == a.run.at)
    && (InEnd(b.run) ==> InEnd(a.run) && b.run.name == a.run.name && b.run.outcome == a.run.outcome)
    && (b.admission == a.admission || !b.admission.Stamped?)
  }

  /** Sweep b is sweep a, on with the same file or done with it. */
  predicate Proceeds(a: Sweep, b: Sweep) {
    b.Sweeping? || (!a.Sweeping? && a.name == b.name && a.outcome == b.outcome)
  }

  /** The settler itself after its unlink attempt. */
  function Advanced(s: State, x: Settler, u: Unlink): (t: State)
    requires Target(s, x).Some?
    ensures t == s.(workers := t.workers, sweeps := t.sweeps)
    ensures t.workers.Keys == s.workers.Keys
    ensures forall w :: w in s.workers ==> Resumes(s.workers[w], t.workers[w])
    ensures t.sweeps.Keys == s.sweeps.Keys
    ensures forall x :: x in s.sweeps ==> Proceeds(s.sweeps[x], t.sweeps[x])
  {
    match x
    case Runner(w) => WithWorker(s, w, s.workers[w].(run := AfterClaim(s.workers[w].run, u)))
    case Enqueuer(w) =>
      var a := if u.Won? then Admission.Evicted(s.workers[w].admission.victim) else Admitting;
      WithWorker(s, w, s.workers[w].(admission := a))
    case Sweeper(x) => s.(sweeps := s.sweeps[x := AfterSweepClaim(s.sweeps[x], u)])
  }

  /** The settler itself after it has settled. */
  function Released(s: State, x: Settler): (t: State)
    requires Owed(s, x).Some?
    ensures t == s.(workers := t.workers, sweeps := t.sweeps)
    ensures t.workers.Keys == s.workers.Keys
    ensures forall w :: w in s.workers ==> Resumes(s.workers[w], t.workers[w])
    ensures t.sweeps.Keys == s.sweeps.Keys
    ensures forall x :: x in s.sweeps ==> Proceeds(s.sweeps[x], t.sweeps[x])
  {
    match x
    case Runner(w) => WithWorker(s, w, s.workers[w].(run := AfterSettle(s.workers[w].run)))
    case Enqueuer(w) => WithWorker(s, w, s.workers[w].(admission := Admitting))
    case Sweeper(x) => s.(sweeps := s.sweeps[x := Sweeping(s.sweeps[x].kind, s.sweeps[x].todo)])
  }

  function WithWorker(s: State, w: nat, v: Worker): State {
    s.(workers := s.workers[w := v])
  }

  /** What a sweep does with the file it looks at next. */
  function Looked(s: State, y: Sweep, load: Load): Option<Sweep> {
    if !y.Sweeping? || y.todo == [] then None
    else
      var n, rest := y.todo[0], y.todo[1..];
      if load != Unreadable && n !in s.disk then None
      else if y.kind.Purge? then Some(Claiming(Purge, rest, n, Removed))
      else if load.Corrupt? then Some(Claiming(Reap, rest, n, CorruptFile))
      else if load.Readable? && s.now - s.disk[n].enqueuedAt > s.opts.ttl then Some(Claiming(Reap, rest, n, Expired))
      else Some(Sweeping(Reap, rest))
  }

  /** An unlink can succeed only on a file that is there, and reports it gone only if it is not. */
  predicate Possible(s: State, n: Name, u: Unlink) {
    (u.Won? ==> n in s.disk) && (u.Gone? ==> n !in s.disk)
  }

  function Unlinked(s: State, n: Name, u: Unlink): State {
    if u.Won? then s.(disk := s.disk - {n}) else s
  }

  /** The state after event e, or None where e cannot happen in s. */
  ghost function Step(s: State, e: Event): Option<State> {
    match e
    case Tick(now) => if s.now <= now then Some(s.(now := now)) else None
    case Start(w) => if w !in s.workers then Some(WithWorker(s, w, NEW_WORKER)) else None
    case Cancel(w) => if w in s.workers then Some(WithWorker(s, w, s.workers[w].(cancelled := true))) else None
    case Does(w, a) =>
      if w in s.workers && Worked(s, s.workers[w], a).Some? then
        Some(WithWorker(s, w, Worked(s, s.workers[w], a).value))
      else None
    case Admits(w, a) =>
      if w in s.workers && Admitted(s, s.workers[w], a).Some? then
        Some(WithWorker(s, w, Admitted(s, s.workers[w], a).value))
      else None
    case Put(w) =>
      if w in s.workers && s.workers[w].admission.Stamped? && s.workers[w].admission.name !in s.born then
        var n := s.workers[w].admission.name;
        Some(WithWorker(s, w, s.workers[w].(admission := Nobody))
             .(disk := s.disk[n := Item(n.at, s.now, 0)], born := s.born[n := s.now]))
      else None
    case Send(w) =>
      if w in s.workers && s.workers[w].run.Picked?
         && s.now - s.workers[w].run.item.enqueuedAt <= s.opts.ttl then
        var r := s.workers[w].run;
        Some(WithWorker(s, w, s.workers[w].(run := Sending(r.name, r.item)))
             .(sends := s.sends[r.name := s.SendsOf(r.name) + [s.now]]))
      else None
    case Rewrite(w) =>
      if w in s.workers && s.workers[w].run.Rewriting? then
        Some(WithWorker(s, w, s.workers[w].(run := Clearing))
             .(disk := s.disk[s.workers[w].run.name := s.workers[w].run.item]))
      else None
    case Unstick(w, u) =>
      if w in s.workers && s.workers[w].run.Scanning? && s.workers[w].run.todo != []
         && s.workers[w].run.todo[0] in s.workers[w].stuck && Possible(s, s.workers[w].run.todo[0], u) then
        var r := s.workers[w].run;
        var left := if u.Refused? then s.workers[w].stuck else s.workers[w].stuck - {r.todo[0]};
        Some(Unlinked(WithWorker(s, w, s.workers[w].(run := Scanning(r.todo[1..], r.at), stuck := left)), r.todo[0], u))
      else None
    case Claim(x, u) =>
      if Target(s, x).Some? && Possible(s, Target(s, x).value, u) then
        Some(Unlinked(Advanced(s, x, u), Target(s, x).value, u))
      else None
    case Settle(x, consumed) =>
      if Owed(s, x).Some? then
        var n := Owed(s, x).value;
        Some(if consumed then Released(s, x).(handed := s.handed + multiset{n})
             else Released(s, x).(logged := s.logged + multiset{n}))
      else None
    case StartSweep(x, kind, names) =>
      if x !in s.sweeps && Listing(names, s.disk.Keys) then Some(s.(sweeps := s.sweeps[x := Sweeping(kind, names)]))
      else None
    case Look(x, load) =>
      if x in s.sweeps && Looked(s, s.sweeps[x], load).Some? then
        Some(s.(sweeps := s.sweeps[x := Looked(s, s.sweeps[x], load).value]))
      else None
    case EndSweep(x) =>
      if x in s.sweeps && s.sweeps[x].Sweeping? && s.sweeps[x].todo == [] then Some(s.(sweeps := s.sweeps - {x}))
      else None
  }

  /** A run: states joined by events, one more state than events. */
  ghost predicate IsRun(states: seq<State>, events: seq<Event>) {
    && |states| == |events| + 1
    && forall i :: 0 <= i < |events| ==> Step(states[i], events[i]) == Some(states[i + 1])
  }

  /**
   * The hub has just started over a spool directory: nothing runs yet, and nothing was settled or sent by this process.
   */
  predicate Initial(s: State) {
    && s.workers == map[] && s.sweeps == map[] && s.sends == map[]
    && s.handed == multiset{} && s.logged == multiset{}
    && s.born.Keys == s.disk.Keys
  }
}
