/**
 * The one way exactly-once settlement fails while every unlink succeeds: a channel is disabled between a worker's
 * cancellation check and its rewrite, the reaper settles the expired message in between, the rewrite puts the file
 * back, and the worker of the re-enabled channel expires it a second time.
 */
module Race {
  import opened Wrappers
  import opened Names
  import opened Machine
  import opened Settlement

  const TTL: int := 100

  const MESSAGE := Name(false, 0, "a")

  const SPOOLED := Item(0, 0, 0)

  const RETRIED := Item(0, TTL, 1)

  /** What happens, in order. */
  const EVENTS: seq<Event> := [
    Start(0), Does(0, List([MESSAGE])), Does(0, Pick), Send(0), Does(0, Answer(Retryable)),
    Cancel(0), Tick(TTL + 1),
    StartSweep(0, Reap, [MESSAGE]), Look(0, Readable), Claim(Sweeper(0), Won), Settle(Sweeper(0), false), EndSweep(0),
    Does(0, Hold), Rewrite(0), Does(0, Clear),
    Start(1), Does(1, List([MESSAGE])), Does(1, Pick), Does(1, Expire), Claim(Runner(1), Won), Settle(Runner(1), false)]

  /** The run goroutine of the first worker after k events. */
  function FirstRun(k: nat): Run {
    if k <= 1 then Idle
    else if k == 2 then Scanning([MESSAGE], 0)
    else if k == 3 then Picked(MESSAGE, SPOOLED)
    else if k == 4 then Sending(MESSAGE, SPOOLED)
    else if k <= 12 then Backing(MESSAGE, Item(0, 30 * SECOND, 1))
    else if k == 13 then Rewriting(MESSAGE, RETRIED)
    else if k == 14 then Clearing
    else Stopped
  }

  function First(k: nat): Worker {
    Worker(FirstRun(k), Nobody, if 3 <= k <= 14 then Some(MESSAGE) else None, {},
           if k <= 12 then map[] else map[MESSAGE := TTL], k >= 6)
  }

  function SecondRun(k: nat): Run {
    if k == 17 then Scanning([MESSAGE], TTL + 1)
    else if k == 18 then Picked(MESSAGE, RETRIED)
    else if k == 19 then Finishing(MESSAGE, Expired)
    else if k == 20 then Finished(MESSAGE, Expired)
    else if k == 21 then Clearing
    else Idle
  }

  function Second(k: nat): Worker {
    Worker(SecondRun(k), Nobody, if k >= 18 then Some(MESSAGE) else None, {}, map[], false)
  }

  function Reaper(k: nat): map<nat, Sweep> {
    if k == 8 then map[0 := Sweeping(Reap, [MESSAGE])]
    else if k == 9 then map[0 := Claiming(Reap, [], MESSAGE, Expired)]
    else if k == 10 then map[0 := Claimed(Reap, [], MESSAGE, Expired)]
    else if k == 11 then map[0 := Sweeping(Reap, [])]
    else map[]
  }

  function Disk(k: nat): map<Name, Item> {
    if k <= 9 then map[MESSAGE := SPOOLED]
    else if 14 <= k <= 19 then map[MESSAGE := RETRIED]
    else map[]
  }

  /** The state after k events. */
  function At(k: nat): State {
    State(Options(TTL, 10), if k <= 6 then 0 else TTL + 1, Disk(k),
          if k == 0 then map[] else if k <= 15 then map[0 := First(k)] else map[0 := First(k), 1 := Second(k)],
          Reaper(k), map[MESSAGE := 0], multiset{},
          if k <= 10 then multiset{} else if k <= 20 then multiset{MESSAGE} else multiset{MESSAGE, MESSAGE},
          if k <= 3 then map[] else map[MESSAGE := [0]])
  }

  lemma Listed()
    ensures Listing([MESSAGE], {MESSAGE})
  {
  }

  /** Two states are equal when their parts are. */
  predicate Same(s: State, t: State) {
    && s.opts == t.opts && s.now == t.now && s.disk == t.disk && s.sweeps == t.sweeps && s.born == t.born
    && s.handed == t.handed && s.logged == t.logged && s.sends == t.sends
    && s.workers.Keys == t.workers.Keys
    && forall w :: w in s.workers ==>
        && s.workers[w].run == t.workers[w].run && s.workers[w].admission == t.workers[w].admission
        && s.workers[w].inFlight == t.workers[w].inFlight && s.workers[w].stuck == t.workers[w].stuck
        && s.workers[w].hold == t.workers[w].hold && s.workers[w].cancelled == t.workers[w].cancelled
  }

  lemma SameIsEqual(s: State, t: State)
    requires Same(s, t)
    ensures s == t
  {
    assert s.workers == t.workers;
  }

  /** Event k leads from the k-th state to the next. */
  ghost predicate Moves(k: nat)
    requires k < |EVENTS|
  {
    Step(At(k), EVENTS[k]).Some? && Same(Step(At(k), EVENTS[k]).value, At(k + 1))
  }

  /** A worker starts, */
  lemma Starts()
    ensures Moves(0)
  {
    hide Worked, Admitted, Looked, Target, Owed, Advanced, Released, Listing, Postponed;
  }

  /** lists the directory, */
  lemma Lists()
    ensures Moves(1)
  {
    hide Admitted, Looked, Target, Owed, Advanced, Released, Postponed;
    Listed();
  }

  /** picks the message, */
  lemma Picks()
    ensures Moves(2)
  {
    hide Admitted, Looked, Target, Owed, Advanced, Released, Listing, Postponed;
    assert [MESSAGE][1..] == [];
  }

  /** sends it, */
  lemma Sends()
    ensures Moves(3)
  {
    hide Worked, Admitted, Looked, Target, Owed, Advanced, Released, Listing, Postponed;
    assert [] + [0] == [0];
  }

  /** is told to retry, */
  lemma IsToRetry()
    ensures Moves(4)
  {
    hide Admitted, Looked, Target, Owed, Advanced, Released, Listing;
  }

  /** and is cancelled after it has looked. */
  lemma IsCancelled()
    ensures Moves(5)
  {
    hide Worked, Admitted, Looked, Target, Owed, Advanced, Released, Listing, Postponed;
  }

  /** The message expires. */
  lemma Waits()
    ensures Moves(6)
  {
    hide Worked, Admitted, Looked, Target, Owed, Advanced, Released, Listing, Postponed;
  }

  /** The reaper lists the directory, */
  lemma StartsSweep()
    ensures Moves(7)
  {
    hide Worked, Admitted, Looked, Target, Owed, Advanced, Released, Postponed;
    Listed();
  }

  /** finds the message expired, */
  lemma Looks()
    ensures Moves(8)
  {
    hide Worked, Admitted, Target, Owed, Advanced, Released, Listing, Postponed;
    assert [MESSAGE][1..] == [];
  }

  /** takes it, */
  lemma Sweeps()
    ensures Moves(9)
  {
    hide Worked, Admitted, Looked, Owed, Released, Listing, Postponed;
  }

  /** settles it, */
  lemma SettlesSwept()
    ensures Moves(10)
  {
    hide Worked, Admitted, Looked, Target, Advanced, Listing, Postponed;
  }

  /** and ends. */
  lemma EndsSweep()
    ensures Moves(11)
  {
    hide Worked, Admitted, Looked, Target, Owed, Advanced, Released, Listing, Postponed;
  }

  /** The worker goes on to hold the message in memory, */
  lemma Holds()
    ensures Moves(12)
  {
    hide Admitted, Looked, Target, Owed, Advanced, Released, Listing, Postponed;
  }

  /** to rewrite the file that is gone, */
  lemma Rewrites()
    ensures Moves(13)
  {
    hide Worked, Admitted, Looked, Target, Owed, Advanced, Released, Listing, Postponed;
  }

  /** and to exit. */
  lemma Clears()
    ensures Moves(14)
  {
    hide Admitted, Looked, Target, Owed, Advanced, Released, Listing, Postponed;
  }

  /** The channel is enabled again: its next worker starts, */
  lemma Restarts()
    ensures Moves(15)
  {
    hide Worked, Admitted, Looked, Target, Owed, Advanced, Released, Listing, Postponed;
  }

  /** lists the directory, */
  lemma ListsAgain()
    ensures Moves(16)
  {
    hide Admitted, Looked, Target, Owed, Advanced, Released, Postponed;
    Listed();
  }

  /** picks the file, */
  lemma PicksAgain()
    ensures Moves(17)
  {
    hide Admitted, Looked, Target, Owed, Advanced, Released, Listing, Postponed;
    assert [MESSAGE][1..] == [];
  }

  /** finds the message expired, */
  lemma FindsExpired()
    ensures Moves(18)
  {
    hide Admitted, Looked, Target, Owed, Advanced, Released, Listing, Postponed;
  }

  /** takes it, */
  lemma TakesAgain()
    ensures Moves(19)
  {
    hide Worked, Admitted, Looked, Owed, Released, Listing, Postponed;
  }

  /** and settles it again. */
  lemma SettlesAgain()
    ensures Moves(20)
  {
    hide Worked, Admitted, Looked, Target, Advanced, Listing, Postponed;
  }

  lemma Leads(k: nat)
    requires k < |EVENTS|
    ensures Step(At(k), EVENTS[k]) == Some(At(k + 1))
  {
    assert Moves(k) by {
      hide Moves;
      if k == 0 { Starts(); }
      else if k == 1 { Lists(); }
      else if k == 2 { Picks(); }
      else if k == 3 { Sends(); }
      else if k == 4 { IsToRetry(); }
      else if k == 5 { IsCancelled(); }
      else if k == 6 { Waits(); }
      else if k == 7 { StartsSweep(); }
      else if k == 8 { Looks(); }
      else if k == 9 { Sweeps(); }
      else if k == 10 { SettlesSwept(); }
      else if k == 11 { EndsSweep(); }
      else if k == 12 { Holds(); }
      else if k == 13 { Rewrites(); }
      else if k == 14 { Clears(); }
      else if k == 15 { Restarts(); }
      else if k == 16 { ListsAgain(); }
      else if k == 17 { PicksAgain(); }
      else if k == 18 { FindsExpired(); }
      else if k == 19 { TakesAgain(); }
      else { SettlesAgain(); }
    }
    hide Step, At;
    SameIsEqual(Step(At(k), EVENTS[k]).value, At(k + 1));
  }

  lemma Ends()
    ensures Initial(At(0)) && At(|EVENTS|).Settled(MESSAGE) == 2
    ensures forall e :: e in EVENTS ==> Reliable(e)
  {
  }

  /** Reliable unlinks alone do not give exactly-once: there is a run in which one message is settled twice. */
  lemma SettledTwice()
    ensures exists states: seq<State>, events: seq<Event> ::
              && IsRun(states, events) && Initial(states[0]) && (forall e :: e in events ==> Reliable(e))
              && states[|events|].Settled(MESSAGE) == 2
  {
    Ends();
    hide Step, At, Initial, Reliable;
    var states := seq(|EVENTS| + 1, k requires 0 <= k => At(k));
    forall i | 0 <= i < |EVENTS| ensures Step(states[i], EVENTS[i]) == Some(states[i + 1]) { Leads(i); }
    assert IsRun(states, EVENTS);
  }
}
