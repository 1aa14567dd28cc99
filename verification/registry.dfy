/**
 * The registry that connects settlers to request handlers, and the handler's side of the handoff. Whoever settles a
 * message calls Resolve; true means the waiting handler has the outcome and reports it, false means the settler owns
 * the terminal log line. The handler registers before it enqueues, listens until its window closes, deregisters what
 * is left and drains what was resolved in the race.
 */
module Handoff {
  import opened Wrappers

  /** A channel, by its id. */
  datatype Channel = Channel(id: string)

  datatype Key = Key(request: string, channel: Channel)

  datatype Outcome = Outcome(channel: Channel, status: string)

  /** A buffered channel of outcomes. */
  class Mailbox {
    const capacity: nat
    var buffer: seq<Outcome>

    constructor (capacity: nat)
      ensures this.capacity == capacity && buffer == []
    {
      this.capacity := capacity;
      buffer := [];
    }
  }

  class Registry {
    var waiters: map<Key, Mailbox>

    /** A send to c cannot block: there is room for an outcome from each of its waiters. */
    ghost predicate Room(c: Mailbox)
      reads this, c
    {
      |KeysOf(waiters, c)| + |c.buffer| <= c.capacity
    }

    ghost predicate Valid()
      reads this, waiters.Values
    {
      forall k :: k in waiters ==> Room(waiters[k])
    }

    constructor ()
      ensures Valid() && waiters == map[]
    {
      waiters := map[];
    }

    /** Add: registers one mailbox for a request across channels, never overwriting a waiter that is already there. */
    method Add(request: string, channels: seq<Channel>) returns (c: Mailbox)
      requires Valid()
      modifies `waiters
      ensures Valid() && fresh(c) && c.buffer == [] && c.capacity == |channels| && Room(c)
      ensures waiters.Keys == old(waiters).Keys + KeySet(request, channels)
      ensures forall k :: k in waiters ==> waiters[k] == if k in old(waiters) then old(waiters)[k] else c
    {
      c := new Mailbox(|channels|);
      assert c !in waiters.Values;
      Register(request, channels, c);
      AddKeepsRoom(old(waiters), waiters, c, request, channels);
    }

    /** The loop of Add, under the lock. */
    method Register(request: string, channels: seq<Channel>, c: Mailbox)
      modifies `waiters
      ensures waiters.Keys == old(waiters).Keys + KeySet(request, channels)
      ensures forall k :: k in waiters ==> waiters[k] == if k in old(waiters) then old(waiters)[k] else c
    {
      for i := 0 to |channels|
        invariant waiters.Keys == old(waiters).Keys + KeySet(request, channels[..i])
        invariant forall k :: k in waiters ==> waiters[k] == if k in old(waiters) then old(waiters)[k] else c
      {
        var k := Key(request, channels[i]);
        assert channels[..i + 1] == channels[..i] + [channels[i]];
        if k !in waiters { waiters := waiters[k := c]; }
      }
      assert channels[..|channels|] == channels;
    }

    /**
     * Resolve: hands a terminal outcome to the waiter if one is registered, and says whether it did. The waiter is
     * deregistered by the same step, and the buffered send has room, so it never blocks under the lock.
     */
    method Resolve(k: Key, o: Outcome) returns (consumed: bool)
      requires Valid()
      modifies `waiters, if k in waiters then {waiters[k]} else {}
      ensures Valid() && waiters == old(waiters) - {k}
      ensures consumed <==> k in old(waiters)
      ensures consumed ==> old(waiters)[k].buffer == old(waiters[k].buffer) + [o]
    {
      if k !in waiters {
        return false;
      }
      var c := waiters[k];
      assert Room(c);
      ResolveFreesRoom(waiters, k);
      assert |c.buffer| < c.capacity;
      waiters := waiters - {k};
      c.buffer := c.buffer + [o];
      return true;
    }

    /** Cancel: deregisters the waiters of a request that are still there, and no others. */
    method Cancel(request: string, channels: seq<Channel>)
      requires Valid()
      modifies `waiters
      ensures Valid() && waiters == old(waiters) - KeySet(request, channels)
    {
      for i := 0 to |channels|
        invariant waiters == old(waiters) - KeySet(request, channels[..i])
      {
        assert channels[..i + 1] == channels[..i] + [channels[i]];
        waiters := waiters - {Key(request, channels[i])};
      }
      assert channels[..|channels|] == channels;
      CancelKeepsRoom(old(waiters), KeySet(request, channels));
    }
  }

  /** Taking one waiter away frees one place in its mailbox and none in the others. */
  lemma ResolveFreesRoom(waiters: map<Key, Mailbox>, k: Key)
    requires k in waiters
    ensures |KeysOf(waiters - {k}, waiters[k])| == |KeysOf(waiters, waiters[k])| - 1
    ensures forall c :: c in waiters.Values && c != waiters[k] ==> KeysOf(waiters - {k}, c) == KeysOf(waiters, c)
  {
    assert KeysOf(waiters - {k}, waiters[k]) == KeysOf(waiters, waiters[k]) - {k};
  }

  lemma CancelKeepsRoom(waiters: map<Key, Mailbox>, ks: set<Key>)
    ensures forall c :: c in waiters.Values ==> |KeysOf(waiters - ks, c)| <= |KeysOf(waiters, c)|
  {
    forall c | c in waiters.Values ensures |KeysOf(waiters - ks, c)| <= |KeysOf(waiters, c)| {
      SubsetSize(KeysOf(waiters - ks, c), KeysOf(waiters, c));
    }
  }

  /** The waiters that c serves. */
  function KeysOf(waiters: map<Key, Mailbox>, c: Mailbox): set<Key> {
    set k | k in waiters && waiters[k] == c
  }

  lemma AddKeepsRoom(was: map<Key, Mailbox>, waiters: map<Key, Mailbox>, c: Mailbox, request: string,
                     channels: seq<Channel>)
    requires c !in was.Values && waiters.Keys == was.Keys + KeySet(request, channels)
    requires forall k :: k in waiters ==> waiters[k] == if k in was then was[k] else c
    ensures |KeysOf(waiters, c)| <= |channels|
    ensures forall k :: k in was ==> KeysOf(waiters, was[k]) == KeysOf(was, was[k])
  {
    assert KeysOf(waiters, c) <= KeySet(request, channels) by {
      assert forall k :: k in was ==> was[k] in was.Values;
    }
    SubsetSize(KeysOf(waiters, c), KeySet(request, channels));
    KeySetSize(request, channels);
    forall k | k in was ensures KeysOf(waiters, was[k]) == KeysOf(was, was[k]) { assert was[k] in was.Values; }
  }

  function KeySet(request: string, channels: seq<Channel>): set<Key> {
    set ch | ch in channels :: Key(request, ch)
  }

  lemma {:induction false} KeySetSize(request: string, channels: seq<Channel>)
    ensures |KeySet(request, channels)| <= |channels|
  {
    if channels != [] {
      var n := |channels| - 1;
      KeySetSize(request, channels[..n]);
      assert channels == channels[..n] + [channels[n]];
      assert KeySet(request, channels) == KeySet(request, channels[..n]) + {Key(request, channels[n])};
    }
  }

  lemma {:induction false} SubsetSize<T>(a: set<T>, b: set<T>)
    requires a <= b
    ensures |a| <= |b|
  {
    if a != {} {
      var x :| x in a;
      SubsetSize(a - {x}, b - {x});
    }
  }

  /** Every outcome in the mailbox was handed over by its settler and has not been received, each channel once. */
  predicate MailboxTrue(buffer: seq<Outcome>, handed: map<Channel, string>, results: map<Channel, string>) {
    && (forall i :: 0 <= i < |buffer| ==>
          && buffer[i].channel in handed && buffer[i].status == handed[buffer[i].channel]
          && buffer[i].channel !in results)
    && (forall i, j :: 0 <= i < j < |buffer| ==> buffer[i].channel != buffer[j].channel)
  }

  lemma MailboxAppend(buffer: seq<Outcome>, handed: map<Channel, string>, results: map<Channel, string>, o: Outcome)
    requires MailboxTrue(buffer, handed, results) && o.channel !in handed && o.channel !in results
    ensures MailboxTrue(buffer + [o], handed[o.channel := o.status], results)
  {
  }

  lemma MailboxFails(buffer: seq<Outcome>, handed: map<Channel, string>, results: map<Channel, string>, ch: Channel,
                     status: string)
    requires MailboxTrue(buffer, handed, results) && ch !in handed
    ensures MailboxTrue(buffer, handed, results[ch := status])
  {
  }

  predicate InBuffer(buffer: seq<Outcome>, channel: Channel) {
    exists i :: 0 <= i < |buffer| && buffer[i].channel == channel
  }

  lemma InBufferAppend(buffer: seq<Outcome>, o: Outcome)
    ensures forall ch :: InBuffer(buffer + [o], ch) <==> InBuffer(buffer, ch) || ch == o.channel
  {
    forall ch ensures InBuffer(buffer + [o], ch) <==> InBuffer(buffer, ch) || ch == o.channel {
      assert (buffer + [o])[|buffer|] == o;
      if i :| 0 <= i < |buffer| && buffer[i].channel == ch { assert (buffer + [o])[i].channel == ch; }
    }
  }

  /** One request being dispatched, and what has become of its message in each channel so far. */
  class Request {
    const id: string
    const registry: Registry
    /** Channels whose spool holds the message unsettled. */
    var spooled: set<Channel>
    /** Outcomes a settler handed to the waiter, and outcomes a settler wrote to the log. */
    var handed: map<Channel, string>
    var logged: map<Channel, string>

    constructor (id: string, registry: Registry)
      ensures this.id == id && this.registry == registry && Accepted() == {}
    {
      this.id, this.registry := id, registry;
      spooled, handed, logged := {}, map[], map[];
    }

    /** Channels that accepted the message. */
    function Accepted(): set<Channel>
      reads this
    {
      spooled + handed.Keys + logged.Keys
    }

    predicate Waits(channel: Channel)
      reads registry
    {
      Key(id, channel) in registry.waiters
    }

    /** Where each channel's outcome is, while the handler listens and after it has stopped. */
    ghost predicate Tracks(c: Mailbox, results: map<Channel, string>, listening: bool)
      reads this, registry, c
    {
      && MailboxTrue(c.buffer, handed, results)
      && spooled !! handed.Keys && spooled !! logged.Keys && handed.Keys !! logged.Keys
      && (forall ch :: Waits(ch) ==> registry.waiters[Key(id, ch)] == c && ch !in handed && ch !in logged)
      && (forall ch :: ch in handed ==> (ch in results && results[ch] == handed[ch]) || InBuffer(c.buffer, ch))
      && (forall ch :: ch in spooled || ch in logged ==> ch !in results)
      && (listening ==> logged == map[] && forall ch :: ch in spooled ==> Waits(ch))
      && (!listening ==> forall ch :: !Waits(ch))
    }

    /** A settler wins the unlink of this message in one channel and settles it: Resolve, or else a log line. */
    method SettleOne(c: Mailbox, channel: Channel, status: string, ghost results: map<Channel, string>,
                     ghost listening: bool)
      requires registry.Valid() && channel in spooled && Tracks(c, results, listening)
      modifies `spooled, `handed, `logged, registry`waiters, c
      ensures registry.Valid() && Tracks(c, results, listening)
      ensures Accepted() == old(Accepted()) && spooled == old(spooled) - {channel}
      ensures registry.waiters == old(registry.waiters) - {Key(id, channel)}
      ensures if old(Waits(channel)) then handed == old(handed)[channel := status] && logged == old(logged)
              else handed == old(handed) && logged == old(logged)[channel := status] && c.buffer == old(c.buffer)
    {
      hide Registry.Valid, InBuffer, MailboxTrue;
      var consumed := registry.Resolve(Key(id, channel), Outcome(channel, status));
      spooled := spooled - {channel};
      if consumed {
        InBufferAppend(old(c.buffer), Outcome(channel, status));
        MailboxAppend(old(c.buffer), handed, results, Outcome(channel, status));
        handed := handed[channel := status];
      } else {
        logged := logged[channel := status];
      }
      forall ch ensures Waits(ch) <==> old(Waits(ch)) && ch != channel {
        assert Waits(ch) <==> Key(id, ch) in old(registry.waiters) - {Key(id, channel)};
      }
    }

    /** No waiter appears, and none goes but this request's in channels that accepted the message. */
    twostate predicate OthersKept()
      reads this, registry
    {
      && (forall k :: k in registry.waiters ==>
            k in old(registry.waiters) && registry.waiters[k] == old(registry.waiters)[k])
      && (forall k :: k in old(registry.waiters) ==>
            k in registry.waiters || (k.request == id && k.channel in Accepted()))
    }

    /** Any number of settlers do their work. */
    method Settlers(c: Mailbox, ghost results: map<Channel, string>, ghost listening: bool)
      requires registry.Valid() && Tracks(c, results, listening)
      modifies `spooled, `handed, `logged, registry`waiters, c
      ensures registry.Valid() && Tracks(c, results, listening)
      ensures Accepted() == old(Accepted()) && spooled <= old(spooled)
      ensures OthersKept() && (!listening ==> c.buffer == old(c.buffer))
      ensures old(Ready([], results)) ==> Ready([], results)
    {
      var more := *;
      while spooled != {} && more
        invariant registry.Valid() && Tracks(c, results, listening)
        invariant Accepted() == old(Accepted()) && spooled <= old(spooled)
        invariant OthersKept() && (!listening ==> c.buffer == old(c.buffer))
        decreases |spooled|
      {
        var channel :| channel in spooled;
        var status := AnyStatus();
        SettleOne(c, channel, status, results, listening);
        more := *;
      }
    }

    /** The first loop of dispatch: drops repeated targets and marks those that are disabled. */
    method Sort(targets: seq<Channel>, enabled: set<Channel>)
        returns (waiting: seq<Channel>, results: map<Channel, string>)
      ensures forall ch :: ch in waiting <==> ch in targets && ch in enabled
      ensures Distinct(waiting)
      ensures forall ch :: ch in results <==> ch in targets && ch !in enabled
      ensures forall ch :: ch in results ==> results[ch] == "disabled"
    {
      waiting, results := [], map[];
      var seen := {};
      for i := 0 to |targets|
        invariant forall ch :: ch in seen <==> ch in targets[..i]
        invariant forall ch :: ch in waiting <==> ch in seen && ch in enabled
        invariant Distinct(waiting)
        invariant forall ch :: ch in results <==> ch in seen && ch !in enabled
        invariant forall ch :: ch in results ==> results[ch] == "disabled"
      {
        var ch := targets[i];
        assert targets[..i + 1] == targets[..i] + [ch];
        if ch !in seen {
          seen := seen + {ch};
          if ch in enabled { waiting := waiting + [ch]; } else { results := results[ch := "disabled"]; }
        }
      }
      assert targets[..|targets|] == targets;
    }

    /**
     * Engine.Enqueue for one channel: the message is in the spool, and may be settled before this returns, unless the
     * channel refuses it.
     */
    method Enqueue(c: Mailbox, channel: Channel, refused: bool, ghost results: map<Channel, string>)
      requires registry.Valid() && Tracks(c, results, true)
      requires Waits(channel) && channel !in Accepted() && channel !in results
      modifies `spooled, `handed, `logged, registry`waiters, c
      ensures registry.Valid() && Tracks(c, results, true)
      ensures Accepted() == if refused then old(Accepted()) else old(Accepted()) + {channel}
      ensures OthersKept()
    {
      hide Registry.Valid;
      Settlers(c, results, true);
      if !refused {
        spooled := spooled + {channel};
        Settlers(c, results, true);
      }
    }

    /** The channels still to be offered the message have a waiter each, and nobody else but those that accepted. */
    ghost predicate Ready(rest: seq<Channel>, results: map<Channel, string>)
      reads this, registry
    {
      && Distinct(rest)
      && (forall ch :: ch in rest ==> Waits(ch) && ch !in Accepted() && ch !in results)
      && (forall ch :: Waits(ch) ==> ch in Accepted() || ch in rest)
    }

    /** Offers the message to one channel, and deregisters the waiter if it is not accepted. */
    method Offer(c: Mailbox, channel: Channel, refusals: map<Channel, string>, ghost rest: seq<Channel>,
                 was: map<Channel, string>)
        returns (ok: bool, results: map<Channel, string>)
      requires registry.Valid() && Tracks(c, was, true) && Ready([channel] + rest, was)
      modifies `spooled, `handed, `logged, registry`waiters, c
      ensures registry.Valid() && Tracks(c, results, true) && Ready(rest, results)
      ensures ok == (channel !in refusals)
      ensures Accepted() == if ok then old(Accepted()) + {channel} else old(Accepted())
      ensures results == if ok then was else was[channel := "failed: " + refusals[channel]]
    {
      hide Registry.Valid, InBuffer, MailboxTrue;
      DistinctTail(channel, rest);
      Enqueue(c, channel, channel in refusals, was);
      ok, results := true, was;
      if channel in refusals {
        registry.Cancel(id, [channel]);
        MailboxFails(c.buffer, handed, was, channel, "failed: " + refusals[channel]);
        ok, results := false, was[channel := "failed: " + refusals[channel]];
      }
    }

    /** The second loop of dispatch: enqueues in each channel. */
    method EnqueueAll(c: Mailbox, waiting: seq<Channel>, refusals: map<Channel, string>, disabled: map<Channel, string>)
        returns (enqueued: seq<Channel>, results: map<Channel, string>)
      requires registry.Valid() && Tracks(c, disabled, true) && Accepted() == {} && Ready(waiting, disabled)
      modifies `spooled, `handed, `logged, registry`waiters, c
      ensures registry.Valid() && Tracks(c, results, true) && Ready([], results)
      ensures Distinct(enqueued) && forall ch :: ch in enqueued <==> ch in Accepted()
      ensures Offered(Accepted(), waiting, refusals, disabled, results)
    {
      hide Tracks, Accepted, Ready, Registry.Valid;
      enqueued, results := [], disabled;
      for i := 0 to |waiting|
        invariant registry.Valid() && Tracks(c, results, true) && Ready(waiting[i..], results)
        invariant Distinct(enqueued) && forall ch :: ch in enqueued <==> ch in Accepted()
        invariant Offered(Accepted(), waiting[..i], refusals, disabled, results)
      {
        var ch := waiting[i];
        assert waiting[..i + 1] == waiting[..i] + [ch] && waiting[i..] == [ch] + waiting[i + 1..];
        NotOffered(ch, waiting[i + 1..], results);
        var ok;
        ok, results := Offer(c, ch, refusals, waiting[i + 1..], results);
        if ok { enqueued := enqueued + [ch]; }
      }
      assert waiting[..|waiting|] == waiting;
    }

    lemma NotOffered(channel: Channel, rest: seq<Channel>, results: map<Channel, string>)
      requires Ready([channel] + rest, results)
      ensures channel !in Accepted() && channel !in results
    {
      assert ([channel] + rest)[0] == channel;
    }

    /** The handler receives one outcome. */
    method Receive(c: Mailbox, was: map<Channel, string>, ghost listening: bool) returns (results: map<Channel, string>)
      requires registry.Valid() && Tracks(c, was, listening) && c.buffer != []
      modifies c
      ensures registry.Valid() && Tracks(c, results, listening) && |c.buffer| == |old(c.buffer)| - 1
      ensures old(c.buffer[0].channel) in Accepted() && old(c.buffer[0].channel) !in was
      ensures results.Keys == was.Keys + {old(c.buffer[0].channel)} && Adds(Accepted(), was, results)
      ensures Ready([], was) ==> Ready([], results)
    {
      var o := c.buffer[0];
      InBufferTail(c.buffer);
      c.buffer := c.buffer[1..];
      results := was[o.channel := o.status];
    }

    /** Every channel that accepted reads its settler's outcome, or "queued" if the settler found nobody waiting. */
    ghost predicate Answered(results: map<Channel, string>)
      reads this, registry
    {
      forall ch :: ch in Accepted() ==>
        && !Waits(ch) && ch in results && (ch in handed ==> ch !in logged)
        && results[ch] == if ch in handed then handed[ch] else "queued"
    }

    /** Drains what was resolved before the waiters were taken away. */
    method Drain(c: Mailbox, was: map<Channel, string>) returns (results: map<Channel, string>)
      requires registry.Valid() && Tracks(c, was, false)
      modifies `spooled, `handed, `logged, registry`waiters, c
      ensures registry.Valid() && Tracks(c, results, false) && c.buffer == [] && Accepted() == old(Accepted())
      ensures Adds(Accepted(), was, results)
    {
      hide Tracks, Registry.Valid;
      results := was;
      while c.buffer != []
        invariant registry.Valid() && Tracks(c, results, false) && Accepted() == old(Accepted())
        invariant Adds(Accepted(), was, results)
        decreases |c.buffer|
      {
        results := Receive(c, results, false);
        Settlers(c, results, false);
      }
    }

    /** What has no outcome yet reads as queued. */
    method MarkQueued(enqueued: seq<Channel>, was: map<Channel, string>) returns (results: map<Channel, string>)
      ensures forall ch :: ch in results <==> ch in was || ch in enqueued
      ensures forall ch :: ch in results ==> results[ch] == if ch in was then was[ch] else "queued"
    {
      results := was;
      for i := 0 to |enqueued|
        invariant forall ch :: ch in results <==> ch in was || ch in enqueued[..i]
        invariant forall ch :: ch in results ==> results[ch] == if ch in was then was[ch] else "queued"
      {
        assert enqueued[..i + 1] == enqueued[..i] + [enqueued[i]];
        if enqueued[i] !in results { results := results[enqueued[i] := "queued"]; }
      }
      assert enqueued[..|enqueued|] == enqueued;
    }

    /** The window has closed: deregisters the rest, drains what was resolved in the race, and marks what is left. */
    method Close(c: Mailbox, enqueued: seq<Channel>, was: map<Channel, string>) returns (results: map<Channel, string>)
      requires registry.Valid() && Tracks(c, was, true) && Ready([], was)
      requires forall ch :: ch in enqueued <==> ch in Accepted()
      modifies `spooled, `handed, `logged, registry`waiters, c
      ensures registry.Valid() && Answered(results) && Accepted() == old(Accepted())
      ensures Adds(Accepted(), was, results)
    {
      hide Registry.Valid, Tracks, Ready, Answered;
      Deregister(c, enqueued, was);
      var drained := Drain(c, was);
      results := MarkQueued(enqueued, drained);
      RestQueued(c, drained, results);
    }

    /** Nobody waits for this request any more. */
    method Deregister(c: Mailbox, enqueued: seq<Channel>, was: map<Channel, string>)
      requires registry.Valid() && Tracks(c, was, true) && Ready([], was)
      requires forall ch :: ch in enqueued <==> ch in Accepted()
      modifies registry`waiters
      ensures registry.Valid() && Tracks(c, was, false)
    {
      hide Registry.Valid, InBuffer, MailboxTrue;
      registry.Cancel(id, enqueued);
    }

    /** With nobody waiting and the mailbox drained, what is not reported is still to be settled, or was logged. */
    lemma RestQueued(c: Mailbox, drained: map<Channel, string>, results: map<Channel, string>)
      requires Tracks(c, drained, false) && c.buffer == []
      requires forall ch :: ch in results <==> ch in drained || ch in Accepted()
      requires forall ch :: ch in results ==> results[ch] == if ch in drained then drained[ch] else "queued"
      ensures Answered(results)
    {
      hide MailboxTrue;
    }

    /** One select: an outcome is received, or the window has closed. */
    method Select(c: Mailbox, was: map<Channel, string>) returns (received: bool, results: map<Channel, string>)
      requires registry.Valid() && Tracks(c, was, true) && Ready([], was)
      modifies `spooled, `handed, `logged, registry`waiters, c
      ensures registry.Valid() && Tracks(c, results, true) && Ready([], results)
      ensures Accepted() == old(Accepted()) && Adds(Accepted(), was, results)
      ensures received ==> |Accepted() - results.Keys| == |Accepted() - was.Keys| - 1
      ensures !received ==> results == was
    {
      hide Tracks, Registry.Valid, Accepted, Adds, Ready, OthersKept;
      Settlers(c, was, true);
      var closes := *;
      if c.buffer == [] || closes {
        AddsNothing(Accepted(), was);
        return false, was;
      }
      ghost var channel := c.buffer[0].channel;
      results := Receive(c, was, true);
      OneFewer(Accepted(), was.Keys, channel);
      received := true;
    }

    /** The select loop of dispatch: receives outcomes until all are in or the window closes. */
    method Collect(c: Mailbox, enqueued: seq<Channel>, was: map<Channel, string>)
        returns (results: map<Channel, string>)
      requires registry.Valid() && Tracks(c, was, true) && Ready([], was)
      requires Distinct(enqueued) && forall ch :: ch in enqueued <==> ch in Accepted()
      requires Accepted() !! was.Keys
      modifies `spooled, `handed, `logged, registry`waiters, c
      ensures registry.Valid() && Answered(results) && Accepted() == old(Accepted()) && Adds(Accepted(), was, results)
    {
      hide Tracks, Answered, Ready, Accepted, Adds, Registry.Valid;
      results := was;
      AddsNothing(Accepted(), was);
      var pending := |enqueued|;
      DistinctSize(enqueued, Accepted());
      assert Accepted() - results.Keys == Accepted();
      while pending > 0
        invariant registry.Valid() && Tracks(c, results, true) && Ready([], results)
        invariant Accepted() == old(Accepted()) && Adds(Accepted(), was, results)
        invariant pending == |Accepted() - results.Keys|
      {
        ghost var sofar := results;
        var received;
        received, results := Select(c, results);
        if !received {
          results := Close(c, enqueued, results);
          AddsMore(Accepted(), was, sofar, results);
          return;
        }
        AddsMore(Accepted(), was, sofar, results);
        pending := pending - 1;
      }
      AllIn(Accepted(), results.Keys);
      AllReceived(c, results);
    }

    /** When every channel's outcome has been received, nobody waits any more. */
    lemma AllReceived(c: Mailbox, results: map<Channel, string>)
      requires Tracks(c, results, true) && Ready([], results) && forall ch :: ch in Accepted() ==> ch in results
      ensures Answered(results)
    {
    }

    lemma NothingToAnswer(results: map<Channel, string>)
      requires Accepted() == {}
      ensures Answered(results)
    {
    }

    /** Registers the handler, before anything is enqueued. */
    method Listen(waiting: seq<Channel>, disabled: map<Channel, string>) returns (c: Mailbox)
      requires registry.Valid() && Accepted() == {} && forall ch :: !Waits(ch)
      requires Distinct(waiting) && forall ch :: ch in waiting ==> ch !in disabled
      modifies registry`waiters
      ensures fresh(c) && registry.Valid() && Tracks(c, disabled, true) && Ready(waiting, disabled)
    {
      hide Registry.Valid, Distinct, Registry.Room;
      c := registry.Add(id, waiting);
      assert spooled == {} && handed == map[] && logged == map[];
      forall ch ensures Waits(ch) <==> ch in waiting {
        assert Key(id, ch) !in old(registry.waiters) by { assert !old(Waits(ch)); }
      }
    }

    /**
     * dispatch, over every interleaving with the settlers of its message: the results have one entry per distinct
     * target. A disabled target says so, one that refused the message has failed, and one that accepted it either reads
     * its settler's outcome, which then wrote no log line, or reads "queued" and has no waiter any more, so that its
     * settler is told nobody listens and writes the line.
     */
    method Dispatch(targets: seq<Channel>, enabled: set<Channel>, refusals: map<Channel, string>)
        returns (results: map<Channel, string>)
      requires registry.Valid() && Accepted() == {} && forall ch :: !Waits(ch)
      modifies `spooled, `handed, `logged, registry`waiters
      ensures registry.Valid() && Answered(results)
      ensures forall ch :: ch in results <==> ch in targets
      ensures forall ch :: ch in Accepted() <==> ch in targets && ch in enabled && ch !in refusals
      ensures forall ch :: ch in targets && ch !in enabled ==> results[ch] == "disabled"
      ensures forall ch :: ch in targets && ch in enabled && ch in refusals ==> results[ch] == "failed: " + refusals[ch]
    {
      hide Tracks, Ready, Registry.Valid, Accepted;
      var waiting, disabled := Sort(targets, enabled);
      if waiting == [] {
        NothingToAnswer(disabled);
        return disabled;
      }
      var c := Listen(waiting, disabled);
      var enqueued, failed := EnqueueAll(c, waiting, refusals, disabled);
      results := Collect(c, enqueued, failed);
    }
  }

  /** Each channel offered the message has accepted it or reads why it was refused; what was disabled still reads so. */
  ghost predicate Offered(accepted: set<Channel>, waiting: seq<Channel>, refusals: map<Channel, string>,
                          disabled: map<Channel, string>, results: map<Channel, string>)
  {
    && (forall ch :: ch in accepted <==> ch in waiting && ch !in refusals)
    && (forall ch :: ch in results <==> ch in disabled || (ch in waiting && ch in refusals))
    && (forall ch :: ch in disabled ==> results[ch] == disabled[ch])
    && (forall ch :: ch in results && ch !in disabled ==> results[ch] == "failed: " + refusals[ch])
  }

  /** Results have grown by channels that accepted the message, and nothing that was there has changed. */
  predicate Adds(accepted: set<Channel>, was: map<Channel, string>, results: map<Channel, string>) {
    && (forall ch :: ch in results ==> ch in was || ch in accepted)
    && (forall ch :: ch in was ==> ch in results && results[ch] == was[ch])
  }

  lemma AddsNothing(accepted: set<Channel>, was: map<Channel, string>)
    ensures Adds(accepted, was, was)
  {
  }

  lemma AddsMore(accepted: set<Channel>, was: map<Channel, string>, sofar: map<Channel, string>,
                 results: map<Channel, string>)
    requires Adds(accepted, was, sofar) && Adds(accepted, sofar, results)
    ensures Adds(accepted, was, results)
  {
  }

  predicate Distinct(channels: seq<Channel>) {
    forall i, j :: 0 <= i < j < |channels| ==> channels[i] != channels[j]
  }

  lemma DistinctTail(channel: Channel, rest: seq<Channel>)
    requires Distinct([channel] + rest)
    ensures Distinct(rest) && channel !in rest && channel in [channel] + rest
    ensures forall ch :: ch in rest ==> ch in [channel] + rest
  {
    var all := [channel] + rest;
    assert all[0] == channel && forall i :: 0 <= i < |rest| ==> all[i + 1] == rest[i];
  }

  lemma {:induction false} DistinctSize(channels: seq<Channel>, s: set<Channel>)
    requires Distinct(channels) && forall ch :: ch in channels <==> ch in s
    ensures |s| == |channels|
  {
    if channels == [] {
      assert s == {};
    } else {
      var n := |channels| - 1;
      assert channels[n] in channels;
      DistinctSize(channels[..n], s - {channels[n]});
    }
  }

  lemma OneFewer(a: set<Channel>, b: set<Channel>, channel: Channel)
    requires channel in a && channel !in b
    ensures |a - (b + {channel})| == |a - b| - 1
  {
    assert a - (b + {channel}) == a - b - {channel};
  }

  lemma AllIn(a: set<Channel>, b: set<Channel>)
    requires |a - b| == 0
    ensures forall ch :: ch in a ==> ch in b
  {
    assert a - b == {};
    forall ch | ch in a ensures ch in b { assert ch !in a - b; }
  }

  lemma InBufferTail(buffer: seq<Outcome>)
    requires buffer != []
    ensures forall ch :: InBuffer(buffer, ch) ==> ch == buffer[0].channel || InBuffer(buffer[1..], ch)
  {
    forall ch | InBuffer(buffer, ch) && ch != buffer[0].channel ensures InBuffer(buffer[1..], ch) {
      var i :| 0 <= i < |buffer| && buffer[i].channel == ch;
      assert buffer[1..][i - 1].channel == ch;
    }
  }

  /** A terminal status: any text. */
  method AnyStatus() returns (status: string) {
    status := "";
    var more := *;
    var left: nat := *;
    while more && left > 0
      decreases left
    {
      var ch: char := *;
      status := status + [ch];
      left := left - 1;
      more := *;
    }
  }

  /** A result that is an error or a drop: none of the three fixed words. */
  predicate Bad(v: string) {
    v != "ok" && v != "queued" && v != "disabled"
  }

  /** statusFor: counts the results by kind. An empty set of results counts as delivered. */
  method StatusFor(results: map<Channel, string>) returns (code: int, result: string)
    ensures code == 200 <==> forall ch :: ch in results ==> results[ch] == "ok"
    ensures code == 202 <==> results != map[] && forall ch :: ch in results ==> results[ch] == "queued"
    ensures code == 502 <==> results != map[] && forall ch :: ch in results ==> Bad(results[ch])
    ensures (code, result) in {(200, "delivered"), (202, "queued"), (502, "failed"), (207, "partial")}
  {
    var ok, queued, failed, disabled := 0, 0, 0, 0;
    var rest := results.Keys;
    while rest != {}
      invariant rest <= results.Keys
      invariant ok + queued + failed + disabled == |results.Keys - rest|
      invariant ok <= |results.Keys - rest| && queued <= |results.Keys - rest| && failed <= |results.Keys - rest|
      invariant ok >= 0 && queued >= 0 && failed >= 0 && disabled >= 0
      invariant ok == |results.Keys - rest| <==> forall ch :: ch in results && ch !in rest ==> results[ch] == "ok"
      invariant queued == |results.Keys - rest| <==>
                  forall ch :: ch in results && ch !in rest ==> results[ch] == "queued"
      invariant failed == |results.Keys - rest| <==> forall ch :: ch in results && ch !in rest ==> Bad(results[ch])
      decreases rest
    {
      var ch :| ch in rest;
      assert results.Keys - (rest - {ch}) == (results.Keys - rest) + {ch};
      rest := rest - {ch};
      if results[ch] == "ok" { ok := ok + 1; }
      else if results[ch] == "queued" { queued := queued + 1; }
      else if results[ch] == "disabled" { disabled := disabled + 1; }
      else { failed := failed + 1; }
    }
    assert results.Keys - rest == results.Keys;
    var total := |results|;
    if ok == total { return 200, "delivered"; }
    if queued == total { return 202, "queued"; }
    if failed == total { return 502, "failed"; }
    return 207, "partial";
  }
}
