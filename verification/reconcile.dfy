/**
 * Reconciling channels while messages arrive. SetChannels swaps the configured set under the engine's lock and purges
 * removed channels outside it; Enqueue finds a worker under the lock, writes outside it, and looks again afterwards.
 * One SetChannels runs at a time, with any number of Enqueue calls, workers and reapers beside it.
 */
module Reconcile {
  import opened Wrappers

  type Channel = string

  type File = nat

  /** Where the one SetChannels call stands. */
  datatype Reconciler =
    | Never
    | Quiet
    | Waiting
    | Purging(dirs: set<Channel>)
    | PurgingSpool(dirs: set<Channel>, channel: Channel, files: set<File>)

  /** Where an Enqueue call stands. */
  datatype Caller =
    | Found(channel: Channel)
    | Written(channel: Channel)
    | Removing(channel: Channel)
    | RemovingFiles(channel: Channel, files: set<File>)

  /** `wanted` says which channels are configured, and whether enabled; `spools` has an entry for each directory. */
  datatype State = State(wanted: map<Channel, bool>, workers: set<Channel>, spools: map<Channel, set<File>>,
                         reconciler: Reconciler, callers: map<nat, Caller>)

  datatype Event =
    | Configure(want: map<Channel, bool>, started: set<Channel>)
    | ReadDir
    | ListOrphan(channel: Channel)
    | ClaimOrphan(file: File)
    | OrphanDone(removed: bool)
    | PurgeDone
    | Call(t: nat, channel: Channel)
    | Refuse(t: nat)
    | Write(t: nat, file: File)
    | Recheck(t: nat)
    | ListAgain(t: nat)
    | ClaimAgain(t: nat, file: File)
    | CallDone(t: nat, removed: bool)
    | Deliver(channel: Channel, file: File)

  /** Whether an id can name a spool directory. */
  predicate SafeSpoolName(id: string) {
    && id != "" && id != "." && id != ".." && |id| <= 64
    && forall i :: 0 <= i < |id| ==> SafeChar(id[i])
  }

  predicate SafeChar(c: char) {
    'a' <= c <= 'z' || 'A' <= c <= 'Z' || '0' <= c <= '9' || c == '-' || c == '_' || c == '.'
  }

  /**
   * A usable name is at most 64 letters, digits, dashes, underscores and dots, and neither one dot nor two; so it never
   * leads out of the spool directory, and every bare id that is not too long is one.
   */
  lemma UsableNames(id: string)
    ensures SafeSpoolName(id) <==>
              && 0 < |id| <= 64 && id != "." && id != ".."
              && forall i :: 0 <= i < |id| ==>
                   'a' <= id[i] <= 'z' || 'A' <= id[i] <= 'Z' || '0' <= id[i] <= '9' || id[i] in {'-', '_', '.'}
    ensures SafeSpoolName(id) ==> '/' !in id && '\\' !in id && '\0' !in id
  {
  }

  /** A channel whose worker may run. */
  predicate Runnable(want: map<Channel, bool>, ch: Channel) {
    ch in want && want[ch] && SafeSpoolName(ch)
  }

  function FilesOf(s: State, ch: Channel): set<File> {
    if ch in s.spools then s.spools[ch] else {}
  }

  function MakeDirs(spools: map<Channel, set<File>>, chs: set<Channel>): map<Channel, set<File>> {
    map ch | ch in spools.Keys + chs :: if ch in spools then spools[ch] else {}
  }

  function Unlink(s: State, ch: Channel, f: File): State {
    if ch in s.spools then s.(spools := s.spools[ch := s.spools[ch] - {f}]) else s
  }

  /** os.Remove of a directory: only an empty one goes. */
  function RemoveDir(s: State, ch: Channel, removed: bool): State {
    if removed && ch in s.spools && s.spools[ch] == {} then s.(spools := s.spools - {ch}) else s
  }

  /** The state after event e, or None where e cannot happen in s. */
  function Step(s: State, e: Event): Option<State> {
    match e
    case Configure(want, started) =>
      if (s.reconciler.Never? || s.reconciler.Quiet?) && (forall ch :: ch in started ==> Runnable(want, ch)) then
        var kept := set ch | ch in s.workers && ch in want && want[ch];
        Some(s.(wanted := want, workers := kept + started, spools := MakeDirs(s.spools, started),
                reconciler := Waiting))
      else None
    case ReadDir =>
      if s.reconciler.Waiting? then
        Some(s.(reconciler := Purging(set ch | ch in s.spools && ch !in s.wanted && SafeSpoolName(ch))))
      else None
    case ListOrphan(ch) =>
      if s.reconciler.Purging? && ch in s.reconciler.dirs then
        Some(s.(reconciler := PurgingSpool(s.reconciler.dirs - {ch}, ch, FilesOf(s, ch))))
      else None
    case ClaimOrphan(f) =>
      if s.reconciler.PurgingSpool? && f in s.reconciler.files then
        Some(Unlink(s, s.reconciler.channel, f).(reconciler := s.reconciler.(files := s.reconciler.files - {f})))
      else None
    case OrphanDone(removed) =>
      if s.reconciler.PurgingSpool? && s.reconciler.files == {} then
        Some(RemoveDir(s, s.reconciler.channel, removed).(reconciler := Purging(s.reconciler.dirs)))
      else None
    case PurgeDone =>
      if s.reconciler.Purging? && s.reconciler.dirs == {} then Some(s.(reconciler := Quiet)) else None
    case Call(t, ch) =>
      if t in s.callers then None
      else if ch in s.workers then Some(s.(callers := s.callers[t := Found(ch)]))
      else if Runnable(s.wanted, ch) then
        Some(s.(workers := s.workers + {ch}, spools := MakeDirs(s.spools, {ch}), callers := s.callers[t := Found(ch)]))
      else None
    case Refuse(t) => if t in s.callers && s.callers[t].Found? then Some(s.(callers := s.callers - {t})) else None
    case Write(t, f) =>
      if t in s.callers && s.callers[t].Found? && s.callers[t].channel in s.spools
         && (forall ch :: ch in s.spools ==> f !in s.spools[ch]) then
        var ch := s.callers[t].channel;
        Some(s.(spools := s.spools[ch := s.spools[ch] + {f}], callers := s.callers[t := Written(ch)]))
      else None
    case Recheck(t) =>
      if t in s.callers && s.callers[t].Written? then
        var ch := s.callers[t].channel;
        Some(s.(callers := if ch in s.wanted then s.callers - {t} else s.callers[t := Removing(ch)]))
      else None
    case ListAgain(t) =>
      if t in s.callers && s.callers[t].Removing? then
        var ch := s.callers[t].channel;
        Some(s.(callers := s.callers[t := RemovingFiles(ch, FilesOf(s, ch))]))
      else None
    case ClaimAgain(t, f) =>
      if t in s.callers && s.callers[t].RemovingFiles? && f in s.callers[t].files then
        var c := s.callers[t];
        Some(Unlink(s, c.channel, f).(callers := s.callers[t := RemovingFiles(c.channel, c.files - {f})]))
      else None
    case CallDone(t, removed) =>
      if t in s.callers && s.callers[t].RemovingFiles? && s.callers[t].files == {} then
        Some(RemoveDir(s, s.callers[t].channel, removed).(callers := s.callers - {t}))
      else None
    case Deliver(ch, f) => if f in FilesOf(s, ch) then Some(Unlink(s, ch, f)) else None
  }

  /** The reconcile in progress will still come to file f of channel ch. */
  predicate ReconcilerSees(s: State, ch: Channel, f: File) {
    match s.reconciler
    case Never => true
    case Quiet => false
    case Waiting => true
    case Purging(dirs) => ch in dirs
    case PurgingSpool(dirs, c, files) => ch in dirs || (ch == c && f in files)
  }

  /** Enqueue call t will still come to file f of channel ch. */
  predicate CallerSees(s: State, t: nat, ch: Channel, f: File) {
    && t in s.callers && s.callers[t].channel == ch
    && match s.callers[t]
       case Found(_) => false
       case Written(_) => true
       case Removing(_) => true
       case RemovingFiles(_, files) => f in files
  }

  /** A message of a channel that is not configured will be seen by somebody who removes and settles it. */
  ghost predicate Covered(s: State, ch: Channel, f: File) {
    ch in s.spools && f in s.spools[ch] && ch !in s.wanted && SafeSpoolName(ch) ==>
      ReconcilerSees(s, ch, f) || exists t :: CallerSees(s, t, ch, f)
  }

  ghost predicate NothingLost(s: State) {
    forall ch, f :: Covered(s, ch, f)
  }

  lemma StepCovers(s: State, e: Event, ch: Channel, f: File)
    requires NothingLost(s) && Step(s, e).Some?
    ensures Covered(Step(s, e).value, ch, f)
  {
    var t := Step(s, e).value;
    assert Covered(s, ch, f);
    if x :| CallerSees(s, x, ch, f) { assert CallerSees(t, x, ch, f) || Covered(t, ch, f); }
    if e.Write? && e.file == f && s.callers[e.t].channel == ch { assert CallerSees(t, e.t, ch, f); }
  }

  ghost predicate IsRun(states: seq<State>, events: seq<Event>) {
    && |states| == |events| + 1
    && forall i :: 0 <= i < |events| ==> Step(states[i], events[i]) == Some(states[i + 1])
  }

  /** The process has started over some spool directory and nothing has been configured yet. */
  predicate Initial(s: State) {
    s.reconciler.Never? && s.callers == map[] && s.workers == {} && s.wanted == map[]
  }

  lemma {:induction false} NothingLostRun(states: seq<State>, events: seq<Event>, i: nat)
    requires IsRun(states, events) && Initial(states[0]) && i < |states|
    ensures NothingLost(states[i])
  {
    if i > 0 {
      NothingLostRun(states, events, i - 1);
      assert Step(states[i - 1], events[i - 1]) == Some(states[i]);
      forall ch, f ensures Covered(states[i], ch, f) { StepCovers(states[i - 1], events[i - 1], ch, f); }
    }
  }

  /**
   * No stranded backlog: whenever no reconcile and no Enqueue is in progress, every message spooled under a usable
   * name belongs to a configured channel. Whoever wrote it, either a later reconcile's directory scan saw it or its own
   * Enqueue looked again and removed it.
   */
  lemma NoStrandedBacklog(states: seq<State>, events: seq<Event>, i: nat, ch: Channel, f: File)
    requires IsRun(states, events) && Initial(states[0]) && i < |states|
    requires states[i].reconciler.Quiet? && states[i].callers == map[]
    requires ch in states[i].spools && f in states[i].spools[ch] && SafeSpoolName(ch)
    ensures ch in states[i].wanted
  {
    NothingLostRun(states, events, i);
    assert Covered(states[i], ch, f);
  }
}
