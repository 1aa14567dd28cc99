/**
 * The engine's own methods, one call at a time: reconciling the workers with the configuration, purging the spool of a
 * removed channel, and expiring the spools of disabled ones. What concurrent calls do to one another is the subject of
 * the reconcile and outbox machines. What fails in a call is one of its inputs, down to an emptied directory that
 * stays, so each result is exact.
 */
module Engines {
  import opened Wrappers
  import opened Names
  import opened Machine
  import opened Reconcile
  import opened Workers

  datatype Runtime = Runtime(id: Channel, enabled: bool)

  /** A message settled by the engine, with its outcome. */
  datatype Terminal = Terminal(channel: Channel, name: Name, outcome: Outcome)

  type Spools = map<Channel, map<Name, Item>>

  predicate Mentions(chs: seq<Runtime>, id: Channel) {
    exists i :: 0 <= i < |chs| && chs[i].id == id
  }

  /** The last entry for this channel, which is the one that counts, is switched so. */
  predicate Switches(chs: seq<Runtime>, id: Channel, enabled: bool) {
    exists i :: 0 <= i < |chs| && chs[i] == Runtime(id, enabled) && forall j :: i < j < |chs| ==> chs[j].id != id
  }

  /** The configured channels as a map. */
  ghost predicate Describes(chs: seq<Runtime>, want: map<Channel, bool>) {
    && (forall id :: id in want <==> Mentions(chs, id))
    && forall id, enabled :: Switches(chs, id, enabled) <==> id in want && want[id] == enabled
  }

  lemma DescribesNothing()
    ensures Describes([], map[])
  {
  }

  /** One entry more decides its own channel. */
  lemma DescribesMore(chs: seq<Runtime>, i: nat, want: map<Channel, bool>)
    requires i < |chs| && Describes(chs[..i], want)
    ensures Describes(chs[..i + 1], want[chs[i].id := chs[i].enabled])
  {
    var front, next, last := chs[..i], chs[..i + 1], chs[i];
    assert next == front + [last];
    forall id ensures Mentions(next, id) <==> Mentions(front, id) || id == last.id {
      assert next[i] == last;
      if k :| 0 <= k < i && front[k].id == id { assert next[k] == front[k]; }
    }
    forall id, enabled
      ensures Switches(next, id, enabled) <==>
                if id == last.id then enabled == last.enabled else Switches(front, id, enabled) {
      assert next[i] == last;
      if id != last.id {
        if k :| 0 <= k < i && front[k] == Runtime(id, enabled) && forall j :: k < j < i ==> front[j].id != id {
          assert next[k] == front[k];
        }
        if k :| 0 <= k <= i && next[k] == Runtime(id, enabled) && forall j :: k < j <= i ==> next[j].id != id {
          assert front[k] == next[k] && forall j :: k < j < i ==> front[j] == next[j];
        }
      }
    }
  }

  /** The messages of a channel settled in this order, corrupt ones as corrupt. */
  function Terminals(id: Channel, gone: seq<Name>, corrupt: set<Name>, outcome: Outcome): seq<Terminal> {
    seq(|gone|, i requires 0 <= i < |gone| =>
      Terminal(id, gone[i], if gone[i] in corrupt then CorruptFile else outcome))
  }

  /** What a purge takes out of a directory. */
  function Purgeable(files: map<Name, Item>, f: Faults): set<Name> {
    if f.listed then files.Keys - f.refused else {}
  }

  /** What the reaper takes out of a directory: what is corrupt or past the TTL, can be told to be, and unlinks. */
  function Expirable(files: map<Name, Item>, f: Faults, now: int, ttl: int): (due: set<Name>)
    ensures due <= files.Keys
  {
    set n | n in files && f.listed && n !in f.unreadable && n !in f.refused
            && (n in f.corrupt || now - files[n].enqueuedAt > ttl)
  }

  /** A channel that is configured nowhere, under a name that can be a directory. */
  predicate Orphan(want: map<Channel, bool>, id: Channel) {
    id !in want && SafeSpoolName(id)
  }

  /** A channel whose spool only the reaper looks at. */
  predicate Paused(want: map<Channel, bool>, id: Channel) {
    id in want && !want[id] && SafeSpoolName(id)
  }

  /** What is left of a purged directory, if the directory is. */
  predicate PurgedTo(files: map<Name, Item>, f: Faults, stays: bool, spools: Spools, id: Channel) {
    if f.listed && !stays && files.Keys !! f.refused then id !in spools
    else id in spools && spools[id] == files - Purgeable(files, f)
  }

  predicate HasFile(spools: Spools, id: Channel, n: Name) {
    id in spools && n in spools[id]
  }

  function Settles(ts: seq<Terminal>): set<(Channel, Name)> {
    set t | t in ts :: (t.channel, t.name)
  }

  /** The books balance: what has left the spools is what has been settled, each message once, and nothing has come. */
  ghost predicate Accounts(was: Spools, spools: Spools, ts: seq<Terminal>) {
    && (forall id, n :: HasFile(was, id, n) && !HasFile(spools, id, n) <==> (id, n) in Settles(ts))
    && (forall i, j :: 0 <= i < j < |ts| ==> (ts[i].channel, ts[i].name) != (ts[j].channel, ts[j].name))
    && (forall id, n :: HasFile(spools, id, n) ==> HasFile(was, id, n) && spools[id][n] == was[id][n])
  }

  lemma NothingYet(spools: Spools)
    ensures Accounts(spools, spools, [])
  {
  }

  /** A sweep of one more directory keeps the books balanced. */
  lemma OneMoreSwept(was: Spools, between: Spools, spools: Spools, ts: seq<Terminal>, id: Channel, gone: seq<Name>,
                     corrupt: set<Name>, outcome: Outcome)
    requires Accounts(was, between, ts) && id in between && Listing(gone, set n | n in gone)
    requires forall n :: n in gone ==> n in between[id]
    requires OnlyAt(between, spools, id)
    requires forall n :: HasFile(spools, id, n) <==> n in between[id] && n !in gone
    requires forall n :: HasFile(spools, id, n) ==> spools[id][n] == between[id][n]
    ensures Accounts(was, spools, ts + Terminals(id, gone, corrupt, outcome))
  {
    var more := Terminals(id, gone, corrupt, outcome);
    SettlesAll(ts, id, gone, corrupt, outcome);
    ListedOnce(gone);
    forall ch, n
      ensures HasFile(was, ch, n) && !HasFile(spools, ch, n) <==> (ch, n) in Settles(ts + more) {
      assert ch != id ==> HasFile(spools, ch, n) == HasFile(between, ch, n);
    }
    forall i, j | 0 <= i < j < |ts + more|
      ensures ((ts + more)[i].channel, (ts + more)[i].name) != ((ts + more)[j].channel, (ts + more)[j].name) {
      if i < |ts| <= j {
        assert ts[i] in ts;
        assert (ts[i].channel, ts[i].name) in Settles(ts);
      }
    }
  }

  lemma SettlesAll(ts: seq<Terminal>, id: Channel, gone: seq<Name>, corrupt: set<Name>, outcome: Outcome)
    ensures forall ch, n :: (ch, n) in Settles(ts + Terminals(id, gone, corrupt, outcome)) <==>
              (ch, n) in Settles(ts) || (ch == id && n in gone)
  {
    var more := Terminals(id, gone, corrupt, outcome);
    forall n | n in gone ensures (id, n) in Settles(ts + more) {
      var i :| 0 <= i < |gone| && gone[i] == n;
      assert more[i] in ts + more;
    }
    forall t | t in ts ensures t in ts + more {}
  }

  lemma ListedOnce(names: seq<Name>)
    requires Listing(names, set n | n in names)
    ensures forall i, j :: 0 <= i < j < |names| ==> names[i] != names[j]
  {
    forall i, j | 0 <= i < j < |names| ensures names[i] != names[j] { BeforeIrreflexive(names[i]); }
  }

  /** Two sets of spools that differ at most in one channel. */
  ghost predicate OnlyAt(was: Spools, spools: Spools, id: Channel) {
    forall ch :: ch != id ==> (ch in was <==> ch in spools) && (ch in was ==> spools[ch] == was[ch])
  }

  /** The names of a listing that are in a set, in order. */
  function Within(names: seq<Name>, s: set<Name>): (r: seq<Name>)
    ensures forall n :: n in r <==> n in names && n in s
  {
    if names == [] then []
    else
      var n := names[|names| - 1];
      var r := Within(names[..|names| - 1], s);
      assert names == names[..|names| - 1] + [n];
      if n in s then r + [n] else r
  }

  lemma WithinNext(names: seq<Name>, k: nat, s: set<Name>)
    requires k < |names|
    ensures Within(names[..k + 1], s) == Within(names[..k], s) + if names[k] in s then [names[k]] else []
  {
    assert names[..k + 1][..k] == names[..k] && names[..k + 1][k] == names[k];
  }

  lemma WithinListing(names: seq<Name>, files: set<Name>, s: set<Name>)
    requires Listing(names, files) && s <= files
    ensures Listing(Within(names, s), s)
  {
    WithinSorted(names, s);
    assert s == set n | n in names && n in s;
  }

  lemma {:induction false} WithinSorted(names: seq<Name>, s: set<Name>)
    requires forall i, j :: 0 <= i < j < |names| ==> Before(names[i], names[j])
    ensures Listing(Within(names, s), set n | n in names && n in s)
  {
    hide Before;
    if names != [] {
      var front, n := names[..|names| - 1], names[|names| - 1];
      WithinSorted(front, s);
      var r := Within(front, s);
      forall i | 0 <= i < |r| ensures Before(r[i], n) {
        assert r[i] in front;
      }
    }
  }

  class Engine {
    const ttl: int
    var wanted: map<Channel, bool>
    var workers: set<Channel>
    var spools: Spools
    var settled: seq<Terminal>
    ghost var config: seq<Runtime>

    /** What is wanted is what the last reconcile was given. */
    ghost predicate Valid()
      reads `wanted, `config
    {
      Describes(config, wanted)
    }

    constructor (ttl: int, spools: Spools)
      ensures Valid() && config == []
      ensures this.ttl == ttl && this.spools == spools && wanted == map[] && workers == {} && settled == []
    {
      this.ttl, this.spools, wanted, workers, settled, config := ttl, spools, map[], {}, [], [];
    }

    /** claim and settle: the file is unlinked and its message settled. */
    method Take(id: Channel, n: Name, outcome: Outcome)
      requires id in spools
      modifies `spools, `settled
      ensures spools == old(spools)[id := old(spools)[id] - {n}]
      ensures settled == old(settled) + [Terminal(id, n, outcome)]
    {
      spools := spools[id := spools[id] - {n}];
      settled := settled + [Terminal(id, n, outcome)];
    }

    /**
     * purgeSpool: unlinks what it can, settles as removed exactly that, in queue order, and takes the directory away if
     * nothing is left in it and it does not stay.
     */
    method PurgeSpool(id: Channel, f: Faults, stays: bool) returns (gone: seq<Name>)
      modifies `spools, `settled
      ensures settled == old(settled) + Terminals(id, gone, {}, Removed)
      ensures id !in old(spools) ==> gone == [] && spools == old(spools)
      ensures id in old(spools) ==>
                && Listing(gone, Purgeable(old(spools)[id], f)) && OnlyAt(old(spools), spools, id)
                && PurgedTo(old(spools)[id], f, stays, spools, id)
    {
      gone := [];
      if id !in spools || !f.listed {
        assert id in spools ==> spools[id] - {} == spools[id];
        return;
      }
      ghost var files := spools[id];
      gone := ClaimAll(id, f);
      RemovedAll(files, gone, f);
      if !stays && spools[id] == map[] {
        spools := spools - {id};
      }
    }

    /** Unlinks and settles, in queue order, every file that will go. */
    method ClaimAll(id: Channel, f: Faults) returns (gone: seq<Name>)
      requires id in spools && f.listed
      modifies `spools, `settled
      ensures settled == old(settled) + Terminals(id, gone, {}, Removed)
      ensures Listing(gone, Purgeable(old(spools)[id], f))
      ensures spools == old(spools)[id := old(spools)[id] - (set n | n in gone)]
    {
      gone := [];
      ghost var files, going := spools[id], Purgeable(spools[id], f);
      var names := ListSpool(spools[id]);
      TakesNone(spools, id, names, going);
      hide Before, Within, Listing;
      for k := 0 to |names|
        invariant gone == Within(names[..k], going)
        invariant settled == old(settled) + Terminals(id, gone, {}, Removed)
        invariant spools == old(spools)[id := files - (set n | n in gone)]
      {
        WithinNext(names, k, going);
        NotYet(names, files.Keys, k);
        if names[k] !in f.refused {
          TakesNext(old(spools), gone, names[k], id, {}, Removed);
          Take(id, names[k], Removed);
          gone := gone + [names[k]];
        }
      }
      assert names[..|names|] == names;
      WithinListing(names, files.Keys, going);
    }

    /**
     * purgeOrphanSpools: every usable directory of a channel that is not configured is purged; configured channels,
     * disabled ones included, keep theirs untouched.
     */
    method PurgeOrphans(want: map<Channel, bool>, scanned: bool, faults: Channel -> Faults, stays: set<Channel>)
        returns (ts: seq<Terminal>)
      modifies `spools, `settled
      ensures settled == old(settled) + ts && Accounts(old(spools), spools, ts)
      ensures forall t :: t in ts ==> t.outcome == Removed
      ensures Purged(old(spools), want, scanned, faults, stays, spools)
    {
      ts := [];
      NothingYet(spools);
      if !scanned {
        return;
      }
      var rest := spools.Keys;
      hide Accounts, PurgedTo, Purgeable;
      while rest != {}
        invariant rest <= old(spools).Keys
        invariant settled == old(settled) + ts && Accounts(old(spools), spools, ts)
        invariant forall t :: t in ts ==> t.outcome == Removed
        invariant spools.Keys <= old(spools).Keys
        invariant forall id :: id in old(spools) ==>
                    if id in rest || !Orphan(want, id) then id in spools && spools[id] == old(spools)[id]
                    else PurgedTo(old(spools)[id], faults(id), id in stays, spools, id)
        decreases rest
      {
        var id :| id in rest;
        rest := rest - {id};
        if Orphan(want, id) {
          ghost var before := spools;
          var gone := PurgeSpool(id, faults(id), id in stays);
          PurgeLeaves(before, spools, id, gone, faults(id), id in stays);
          OneMoreSwept(old(spools), before, spools, ts, id, gone, {}, Removed);
          StillPurged(before, spools, id);
          ts := ts + Terminals(id, gone, {}, Removed);
        }
      }
    }

    /** The configuration as a map, entry by entry. */
    method Configure(chs: seq<Runtime>)
      modifies `wanted, `config
      ensures Valid() && config == chs
    {
      hide Describes;
      wanted, config := map[], chs;
      assert chs[..0] == [];
      DescribesNothing();
      for i := 0 to |chs|
        invariant Describes(chs[..i], wanted) && config == chs
      {
        DescribesMore(chs, i, wanted);
        wanted := wanted[chs[i].id := chs[i].enabled];
      }
      assert chs[..|chs|] == chs;
    }

    /**
     * SetChannels: one reconcile. The channels with a worker are those whose last entry is enabled and that had one or
     * can have a spool. Directories of channels that have an entry are left alone, and those of channels that have none
     * keep only what would not go.
     */
    method SetChannels(chs: seq<Runtime>, unmakeable: set<Channel>, scanned: bool, faults: Channel -> Faults,
                       stays: set<Channel>)
        returns (ts: seq<Terminal>)
      modifies `wanted, `config, `workers, `spools, `settled
      ensures Valid() && config == chs
      ensures forall id :: id in workers <==>
                Switches(chs, id, true) && (id in old(workers) || (SafeSpoolName(id) && id !in unmakeable))
      ensures settled == old(settled) + ts && Accounts(old(spools), spools, ts)
      ensures forall t :: t in ts ==> t.outcome == Removed
      ensures forall id :: id in spools && id !in old(spools) ==> id in workers && spools[id] == map[]
      ensures forall id :: id in old(spools) && (Mentions(chs, id) || !SafeSpoolName(id) || !scanned) ==>
                id in spools && spools[id] == old(spools)[id]
      ensures forall id :: id in old(spools) && !Mentions(chs, id) && SafeSpoolName(id) && scanned ==>
                && (id !in spools <==> faults(id).listed && old(spools)[id].Keys !! faults(id).refused && id !in stays)
                && forall n :: n in old(spools)[id] ==>
                     (HasFile(spools, id, n) <==> !faults(id).listed || n in faults(id).refused)
    {
      Configure(chs);
      hide Describes, Orphan, PurgedTo, Accounts, Purged, WithDirs, Makeable, Switches, Mentions, SafeSpoolName;
      RestartWorkers(unmakeable);
      ts := PurgeOrphans(wanted, scanned, faults, stays);
      MadeEmpty(old(spools), workers - old(workers), spools, ts);
      WantedWorkers(chs, wanted, old(workers), unmakeable, workers);
      PurgedDirs(old(spools), workers - old(workers), chs, wanted, scanned, faults, stays, spools);
    }

    /** Stops the workers of channels that are disabled or gone, and starts those that are missing. */
    method RestartWorkers(unmakeable: set<Channel>)
      modifies `workers, `spools
      ensures workers == set id | id in wanted && wanted[id] && (id in old(workers) || Makeable(id, unmakeable))
      ensures spools == WithDirs(old(spools), workers - old(workers))
    {
      workers := set id | id in workers && id in wanted && wanted[id];
      ghost var kept := workers;
      StartWorkers(unmakeable);
      assert workers - old(workers) == workers - kept;
    }

    /** Starts a worker for every enabled channel that has none, unless its spool cannot be made. */
    method StartWorkers(unmakeable: set<Channel>)
      modifies `workers, `spools
      ensures workers == old(workers) + set id | id in wanted && wanted[id] && Makeable(id, unmakeable)
      ensures spools == WithDirs(old(spools), workers - old(workers))
    {
      var rest := wanted.Keys;
      while rest != {}
        invariant rest <= wanted.Keys
        invariant workers == old(workers) + set id | id in wanted - rest && wanted[id] && Makeable(id, unmakeable)
        invariant spools == WithDirs(old(spools), workers - old(workers))
        decreases rest
      {
        var id :| id in rest;
        rest := rest - {id};
        if wanted[id] && id !in workers && Makeable(id, unmakeable) {
          if id !in spools { spools := spools[id := map[]]; }
          workers := workers + {id};
        }
      }
    }

    /**
     * expireSpool: unlinks every file it finds corrupt or past the TTL, unless it cannot, and settles exactly those, in
     * queue order.
     */
    method ExpireSpool(id: Channel, f: Faults, now: int) returns (gone: seq<Name>)
      modifies `spools, `settled
      ensures settled == old(settled) + Terminals(id, gone, f.corrupt, Expired)
      ensures id !in old(spools) ==> gone == [] && spools == old(spools)
      ensures id in old(spools) ==>
                && Listing(gone, Expirable(old(spools)[id], f, now, ttl))
                && spools == old(spools)[id := old(spools)[id] - (set n | n in gone)]
    {
      gone := [];
      if id !in spools || !f.listed {
        assert id in spools ==> spools[id] - (set n | n in gone) == spools[id];
        return;
      }
      ghost var files, due := spools[id], Expirable(spools[id], f, now, ttl);
      var names := ListSpool(spools[id]);
      TakesNone(spools, id, names, due);
      hide Before, Expirable, Within, Listing;
      for k := 0 to |names|
        invariant gone == Within(names[..k], due)
        invariant settled == old(settled) + Terminals(id, gone, f.corrupt, Expired)
        invariant spools == old(spools)[id := files - (set n | n in gone)]
      {
        WithinNext(names, k, due);
        NotYet(names, files.Keys, k);
        var expires := Expires(names[k], spools[id][names[k]], f, now);
        ExpirableAt(files, f, now, ttl, names[k]);
        if expires {
          TakesNext(old(spools), gone, names[k], id, f.corrupt, Expired);
          Take(id, names[k], if names[k] in f.corrupt then CorruptFile else Expired);
          gone := gone + [names[k]];
        }
      }
      assert names[..|names|] == names;
      WithinListing(names, files.Keys, due);
    }

    /** What the sweep decides about one file. */
    method Expires(n: Name, item: Item, f: Faults, now: int) returns (takes: bool)
      ensures takes == (n !in f.unreadable && n !in f.refused && (n in f.corrupt || now - item.enqueuedAt > ttl))
    {
      if n in f.unreadable {
        return false;
      }
      if n !in f.corrupt && now - item.enqueuedAt <= ttl {
        return false;
      }
      return n !in f.refused;
    }

    /**
     * reapDisabled: the TTL of channels that are configured and disabled. What is corrupt or past it goes, if it can be
     * read and unlinked; no other channel loses anything.
     */
    method ReapDisabled(faults: Channel -> Faults, now: int) returns (ts: seq<Terminal>)
      requires Valid()
      modifies `spools, `settled
      ensures settled == old(settled) + ts && Accounts(old(spools), spools, ts)
      ensures forall t :: t in ts ==> t.outcome == if t.name in faults(t.channel).corrupt then CorruptFile else Expired
      ensures spools.Keys == old(spools).Keys
      ensures forall id :: id in old(spools) && !(Switches(config, id, false) && SafeSpoolName(id)) ==>
                spools[id] == old(spools)[id]
      ensures forall id, n ::
                id in old(spools) && Switches(config, id, false) && SafeSpoolName(id) && n in old(spools)[id] ==>
                (n !in spools[id] <==>
                  && faults(id).listed && n !in faults(id).unreadable && n !in faults(id).refused
                  && (n in faults(id).corrupt || now - old(spools)[id][n].enqueuedAt > ttl))
    {
      hide Accounts, Expirable, Reaped, Describes, Switches, Mentions, SafeSpoolName, Paused;
      ts := [];
      NothingYet(spools);
      var rest := wanted.Keys;
      assert wanted.Keys - rest == {};
      ReapedNone(spools, wanted, faults, now, ttl);
      while rest != {}
        invariant rest <= wanted.Keys
        invariant settled == old(settled) + ts && Accounts(old(spools), spools, ts) && Labelled(ts, faults)
        invariant Reaped(old(spools), wanted, wanted.Keys - rest, faults, now, ttl, spools)
        decreases rest
      {
        var id :| id in rest;
        ghost var done := wanted.Keys - rest;
        rest := rest - {id};
        assert wanted.Keys - rest == done + {id};
        ts := ReapOne(id, faults, now, old(spools), done, ts);
      }
      assert wanted.Keys - rest == wanted.Keys;
      ReapedDirs(old(spools), config, wanted, faults, now, ttl, spools);
    }

    /** The sweep of one configured channel, if it is disabled. */
    method ReapOne(id: Channel, faults: Channel -> Faults, now: int, ghost was: Spools, ghost done: set<Channel>,
                   sofar: seq<Terminal>)
        returns (ts: seq<Terminal>)
      requires Accounts(was, spools, sofar) && Reaped(was, wanted, done, faults, now, ttl, spools) && id !in done
      requires Labelled(sofar, faults)
      modifies `spools, `settled
      ensures Accounts(was, spools, ts) && Reaped(was, wanted, done + {id}, faults, now, ttl, spools)
      ensures Labelled(ts, faults) && sofar <= ts && settled == old(settled) + ts[|sofar|..]
    {
      hide Accounts, Expirable, Reaped, SafeSpoolName, Paused;
      ts := sofar;
      if Paused(wanted, id) {
        ghost var before := spools;
        var gone := ExpireSpool(id, faults(id), now);
        if id in before {
          ExpiryLeaves(before, spools, id, gone, Expirable(before[id], faults(id), now, ttl));
          OneMoreSwept(was, before, spools, ts, id, gone, faults(id).corrupt, Expired);
        } else {
          assert ts + Terminals(id, gone, faults(id).corrupt, Expired) == ts;
        }
        LabelledMore(ts, id, gone, faults);
        ts := ts + Terminals(id, gone, faults(id).corrupt, Expired);
        ReapedMore(was, before, wanted, done, id, faults, now, ttl, spools);
      } else {
        ReapedNot(was, wanted, done, id, faults, now, ttl, spools);
      }
      assert ts == sofar + ts[|sofar|..];
    }
  }

  /** What the reaper settles is called corrupt if it was found so, and else expired. */
  predicate Labelled(ts: seq<Terminal>, faults: Channel -> Faults) {
    forall t :: t in ts ==> t.outcome == if t.name in faults(t.channel).corrupt then CorruptFile else Expired
  }

  lemma LabelledMore(ts: seq<Terminal>, id: Channel, gone: seq<Name>, faults: Channel -> Faults)
    requires Labelled(ts, faults)
    ensures Labelled(ts + Terminals(id, gone, faults(id).corrupt, Expired), faults)
  {
  }

  lemma ReapedNone(spools: Spools, want: map<Channel, bool>, faults: Channel -> Faults, now: int, ttl: int)
    ensures Reaped(spools, want, {}, faults, now, ttl, spools)
  {
  }

  /** A channel whose spool directory is there or can be made. */
  predicate Makeable(id: Channel, unmakeable: set<Channel>) {
    SafeSpoolName(id) && id !in unmakeable
  }

  /** The spools with an empty directory for each of these channels that has none. */
  function WithDirs(spools: Spools, ids: set<Channel>): Spools {
    map id | id in spools.Keys + ids :: if id in spools then spools[id] else map[]
  }

  /** The directories after a purge: orphans hold what would not go, all others are as they were. */
  ghost predicate Purged(was: Spools, want: map<Channel, bool>, scanned: bool, faults: Channel -> Faults,
                         stays: set<Channel>, spools: Spools) {
    && spools.Keys <= was.Keys
    && forall id :: id in was ==>
         if scanned && Orphan(want, id) then PurgedTo(was[id], faults(id), id in stays, spools, id)
         else id in spools && spools[id] == was[id]
  }

  /** The directories after the reaper has looked at the channels in done. */
  ghost predicate Reaped(was: Spools, want: map<Channel, bool>, done: set<Channel>, faults: Channel -> Faults, now: int,
                         ttl: int, spools: Spools) {
    && spools.Keys == was.Keys
    && forall id :: id in was ==>
         spools[id] == if id in done && Paused(want, id)
                       then was[id] - Expirable(was[id], faults(id), now, ttl) else was[id]
  }

  lemma ExpirableAt(files: map<Name, Item>, f: Faults, now: int, ttl: int, n: Name)
    requires n in files && f.listed
    ensures n in Expirable(files, f, now, ttl) <==>
              n !in f.unreadable && n !in f.refused && (n in f.corrupt || now - files[n].enqueuedAt > ttl)
  {
  }

  lemma RemovedAll(files: map<Name, Item>, gone: seq<Name>, f: Faults)
    requires f.listed && Listing(gone, Purgeable(files, f))
    ensures files - (set n | n in gone) == files - Purgeable(files, f)
    ensures files - Purgeable(files, f) == map[] <==> files.Keys !! f.refused
  {
    assert (set n | n in gone) == Purgeable(files, f);
    forall n | n in files && n in f.refused ensures n in files - Purgeable(files, f) {}
  }

  lemma NotYet(names: seq<Name>, files: set<Name>, k: nat)
    requires k < |names| && Listing(names, files)
    ensures names[k] in files && names[k] !in names[..k]
  {
    BeforeIrreflexive(names[k]);
  }

  /** What a purge has left is what it has not settled. */
  lemma PurgeLeaves(before: Spools, spools: Spools, id: Channel, gone: seq<Name>, f: Faults,
                    stays: bool)
    requires id in before && PurgedTo(before[id], f, stays, spools, id) && Listing(gone, Purgeable(before[id], f))
    ensures forall n :: HasFile(spools, id, n) <==> n in before[id] && n !in gone
    ensures forall n :: HasFile(spools, id, n) ==> spools[id][n] == before[id][n]
    ensures Listing(gone, set n | n in gone) && forall n :: n in gone ==> n in before[id]
  {
    assert Purgeable(before[id], f) == set n | n in gone;
  }

  lemma ExpiryLeaves(before: Spools, spools: Spools, id: Channel, gone: seq<Name>, due: set<Name>)
    requires id in before && Listing(gone, due) && due <= before[id].Keys
    requires spools == before[id := before[id] - (set n | n in gone)]
    ensures forall n :: HasFile(spools, id, n) <==> n in before[id] && n !in gone
    ensures Listing(gone, set n | n in gone) && OnlyAt(before, spools, id)
    ensures spools[id] == before[id] - due
  {
    assert due == set n | n in gone;
  }

  lemma ReapedMore(was: Spools, before: Spools, want: map<Channel, bool>, done: set<Channel>, id: Channel,
                   faults: Channel -> Faults, now: int, ttl: int, spools: Spools)
    requires Reaped(was, want, done, faults, now, ttl, before) && id !in done && Paused(want, id)
    requires if id in before then spools == before[id := before[id] - Expirable(before[id], faults(id), now, ttl)]
             else spools == before
    ensures Reaped(was, want, done + {id}, faults, now, ttl, spools)
  {
    hide Expirable, Paused;
  }

  lemma ReapedNot(was: Spools, want: map<Channel, bool>, done: set<Channel>, id: Channel, faults: Channel -> Faults,
                  now: int, ttl: int, spools: Spools)
    requires Reaped(was, want, done, faults, now, ttl, spools) && !Paused(want, id)
    ensures Reaped(was, want, done + {id}, faults, now, ttl, spools)
  {
    hide Expirable, Paused;
  }

  /** What was purged before stays purged when another directory is. */
  lemma StillPurged(before: Spools, spools: Spools, id: Channel)
    requires OnlyAt(before, spools, id)
    ensures forall ch, files, f, d :: ch != id ==>
              PurgedTo(files, f, d, spools, ch) == PurgedTo(files, f, d, before, ch)
  {
  }

  lemma WantedWorkers(chs: seq<Runtime>, want: map<Channel, bool>, had: set<Channel>, unmakeable: set<Channel>,
                      workers: set<Channel>)
    requires Describes(chs, want)
    requires workers == set id | id in want && want[id] && (id in had || Makeable(id, unmakeable))
    ensures forall id :: id in workers <==>
              Switches(chs, id, true) && (id in had || (SafeSpoolName(id) && id !in unmakeable))
  {
    hide Switches, Mentions;
  }

  /** What a reconcile leaves of the directories, by what the configuration says. */
  lemma PurgedDirs(was: Spools, ids: set<Channel>, chs: seq<Runtime>, want: map<Channel, bool>, scanned: bool,
                   faults: Channel -> Faults, stays: set<Channel>, spools: Spools)
    requires Describes(chs, want) && Purged(WithDirs(was, ids), want, scanned, faults, stays, spools)
    ensures forall id :: id in spools && id !in was ==> id in ids && spools[id] == map[]
    ensures forall id :: id in was && (Mentions(chs, id) || !SafeSpoolName(id) || !scanned) ==>
              id in spools && spools[id] == was[id]
    ensures forall id :: id in was && !Mentions(chs, id) && SafeSpoolName(id) && scanned ==>
              && (id !in spools <==> faults(id).listed && was[id].Keys !! faults(id).refused && id !in stays)
              && forall n :: n in was[id] ==>
                   (HasFile(spools, id, n) <==> !faults(id).listed || n in faults(id).refused)
  {
    hide Switches, Mentions, SafeSpoolName;
    forall id | id in spools && id !in was ensures id in ids && spools[id] == map[] {
      assert WithDirs(was, ids)[id] == map[];
      var none: map<Name, Item> := map[];
      assert none - Purgeable(none, faults(id)) == none;
    }
  }

  /** What the reaper leaves of the directories, by what the configuration says. */
  lemma ReapedDirs(was: Spools, chs: seq<Runtime>, want: map<Channel, bool>, faults: Channel -> Faults, now: int,
                   ttl: int, spools: Spools)
    requires Describes(chs, want) && Reaped(was, want, want.Keys, faults, now, ttl, spools)
    ensures spools.Keys == was.Keys
    ensures forall id :: id in was && !(Switches(chs, id, false) && SafeSpoolName(id)) ==> spools[id] == was[id]
    ensures forall id, n :: id in was && Switches(chs, id, false) && SafeSpoolName(id) && n in was[id] ==>
              (n !in spools[id] <==>
                && faults(id).listed && n !in faults(id).unreadable && n !in faults(id).refused
                && (n in faults(id).corrupt || now - was[id][n].enqueuedAt > ttl))
  {
    hide Switches, Mentions, SafeSpoolName;
  }

  /** New directories are empty: the books balance as if they had been there. */
  lemma MadeEmpty(was: Spools, ids: set<Channel>, spools: Spools, ts: seq<Terminal>)
    requires Accounts(WithDirs(was, ids), spools, ts)
    ensures Accounts(was, spools, ts)
  {
    forall id, n ensures HasFile(was, id, n) == HasFile(WithDirs(was, ids), id, n) {}
  }

  /** Nothing has gone yet. */
  lemma TakesNone(was: Spools, id: Channel, names: seq<Name>, s: set<Name>)
    requires id in was
    ensures Within(names[..0], s) == []
    ensures was == was[id := was[id] - (set n | n in [])]
  {
    assert was[id] - (set n | n in []) == was[id];
  }

  /** The next file to go. */
  lemma TakesNext(was: Spools, gone: seq<Name>, n: Name, id: Channel, corrupt: set<Name>, outcome: Outcome)
    requires id in was
    ensures was[id := was[id] - (set m | m in gone + [n])] ==
              was[id := was[id] - (set m | m in gone)][id := was[id] - (set m | m in gone) - {n}]
    ensures Terminals(id, gone + [n], corrupt, outcome) ==
              Terminals(id, gone, corrupt, outcome) + [Terminal(id, n, if n in corrupt then CorruptFile else outcome)]
  {
    assert was[id] - (set m | m in gone + [n]) == was[id] - (set m | m in gone) - {n};
  }
}
