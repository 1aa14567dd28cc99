/** The rows of the delivery log, said of its lines: which line each field of a row comes from. */
module Reading {
  import opened Wrappers
  import opened Names
  import opened Deliveries

  predicate Asks(l: Line, k: Key) {
    l.Request? && l.request == k.request && k.channel in l.channels
  }

  predicate Ends(l: Line, k: Key) {
    l.Terminal? && l.request == k.request && l.channel == k.channel
  }

  // ----- what the mentions of one delivery come to

  /** The mentions of a delivery that its row is made of. */
  datatype Facts = Facts(asked: Option<Mention>, first: Option<Mention>, last: Option<Mention>, again: Option<Mention>,
                         opening: Option<Mention>)

  function FactsOf(ms: seq<Mention>, k: Key): Facts {
    Facts(FirstAsked(ms, k), FirstSettled(ms, k), LastSettled(ms, k), Resettled(ms, k),
          if Mentioned(ms, k) then Some(FirstMention(ms, k)) else None)
  }

  function Or(a: Option<Mention>, b: Mention): Option<Mention> {
    if a.Some? then a else Some(b)
  }

  /** What one more mention of the delivery changes. */
  function Learned(f: Facts, m: Mention): Facts {
    if m.Settled? then
      f.(first := Or(f.first, m), last := Some(m), again := if f.opening.Some? then Some(m) else f.again,
         opening := Or(f.opening, m))
    else if f.asked.Some? then f
    else f.(asked := Some(m), again := f.first, opening := Or(f.opening, m))
  }

  lemma FactsOther(ms: seq<Mention>, m: Mention, k: Key)
    requires m.key != k
    ensures FactsOf(ms + [m], k) == FactsOf(ms, k)
  {
    OneMore(ms, m);
  }

  lemma FactsMore(ms: seq<Mention>, m: Mention)
    ensures FactsOf(ms + [m], m.key) == Learned(FactsOf(ms, m.key), m)
  {
    OneMore(ms, m);
    if !Mentioned(ms, m.key) { Unmentioned(ms, m.key); }
    AskedMentioned(ms, m.key);
  }

  lemma AskedMentioned(ms: seq<Mention>, k: Key)
    ensures FirstAsked(ms, k).Some? ==> Mentioned(ms, k)
  {
  }

  /** A request line mentions each of its channels once. */
  lemma {:induction false} FactsAskedAll(ms: seq<Mention>, l: Line, ids: seq<string>, k: Key)
    requires l.Request? && (forall ch :: ch in ids ==> ch in l.channels)
    requires forall i, j :: 0 <= i < j < |ids| ==> ids[i] != ids[j]
    ensures FactsOf(ms + AskedAll(l, ids), k) ==
              if l.request == k.request && k.channel in ids then Learned(FactsOf(ms, k), AskedOf(l, k.channel))
              else FactsOf(ms, k)
  {
    hide FactsOf, Learned;
    if ids == [] {
      assert ms + [] == ms;
    } else {
      var n := |ids| - 1;
      var front, last := ids[..n], ids[n];
      assert ids == front + [last];
      FactsAskedAll(ms, l, front, k);
      var m := AskedOf(l, last);
      assert ms + AskedAll(l, ids) == ms + AskedAll(l, front) + [m];
      if m.key == k {
        assert last !in front;
        FactsMore(ms + AskedAll(l, front), m);
      } else {
        FactsOther(ms + AskedAll(l, front), m, k);
      }
    }
  }

  // ----- what the lines of one delivery come to

  /** The first line that asks for the delivery, the first and the last that settle it. */
  function FirstAsk(lines: seq<Line>, k: Key): (r: Option<nat>)
    ensures r.None? ==> forall j :: 0 <= j < |lines| ==> !Asks(lines[j], k)
    ensures r.Some? ==> r.value < |lines| && Asks(lines[r.value], k)
    ensures r.Some? ==> forall j :: 0 <= j < r.value ==> !Asks(lines[j], k)
  {
    if lines == [] then None
    else
      var n := |lines| - 1;
      var before := FirstAsk(lines[..n], k);
      if before.Some? then before else if Asks(lines[n], k) then Some(n) else None
  }

  function FirstEnd(lines: seq<Line>, k: Key): (r: Option<nat>)
    ensures r.None? ==> forall j :: 0 <= j < |lines| ==> !Ends(lines[j], k)
    ensures r.Some? ==> r.value < |lines| && Ends(lines[r.value], k)
    ensures r.Some? ==> forall j :: 0 <= j < r.value ==> !Ends(lines[j], k)
  {
    if lines == [] then None
    else
      var n := |lines| - 1;
      var before := FirstEnd(lines[..n], k);
      if before.Some? then before else if Ends(lines[n], k) then Some(n) else None
  }

  function LastEnd(lines: seq<Line>, k: Key): (r: Option<nat>)
    ensures r.None? <==> FirstEnd(lines, k).None?
    ensures r.Some? ==> r.value < |lines| && Ends(lines[r.value], k)
    ensures r.Some? ==> forall j :: r.value < j < |lines| ==> !Ends(lines[j], k)
  {
    if lines == [] then None
    else
      var n := |lines| - 1;
      if Ends(lines[n], k) then Some(n) else LastEnd(lines[..n], k)
  }

  /** What line i says of the delivery. */
  function AskedBy(l: Line, k: Key): Mention
    requires Asks(l, k)
  {
    Asked(k, l.time, l.caller, l.title, l.priority, l.channels[k.channel])
  }

  function EndedBy(l: Line, k: Key): Mention
    requires Ends(l, k)
  {
    Settled(k, l.time, l.caller, l.outcome)
  }

  /** The facts, from the positions of the lines. */
  function FactsIn(lines: seq<Line>, k: Key): Facts {
    var a, f, l := FirstAsk(lines, k), FirstEnd(lines, k), LastEnd(lines, k);
    Facts(
      if a.Some? then Some(AskedBy(lines[a.value], k)) else None,
      if f.Some? then Some(EndedBy(lines[f.value], k)) else None,
      if l.Some? then Some(EndedBy(lines[l.value], k)) else None,
      if f.None? then None
      else if a.Some? then Some(EndedBy(lines[if l.value > a.value then l.value else f.value], k))
      else if l.value > f.value then Some(EndedBy(lines[l.value], k))
      else None,
      if a.Some? && (f.None? || a.value < f.value) then Some(AskedBy(lines[a.value], k))
      else if f.Some? then Some(EndedBy(lines[f.value], k))
      else None)
  }

  lemma FactsInMore(lines: seq<Line>, k: Key)
    requires lines != []
    ensures var front, l := lines[..|lines| - 1], lines[|lines| - 1];
            FactsIn(lines, k) ==
              if Asks(l, k) then Learned(FactsIn(front, k), AskedBy(l, k))
              else if Ends(l, k) then Learned(FactsIn(front, k), EndedBy(l, k))
              else FactsIn(front, k)
  {
  }

  /** The mentions of a delivery are what its lines say. */
  lemma {:induction false} FactsAgree(lines: seq<Line>, ms: seq<Mention>, k: Key)
    requires SaysAll(lines, ms)
    ensures FactsOf(ms, k) == FactsIn(lines, k)
  {
    hide FactsOf, FactsIn, Learned, AskedAll;
    if lines == [] {
      NoFacts(k);
    } else {
      var n := |lines| - 1;
      var a, b :| SaysAll(lines[..n], a) && Says(lines[n], b) && ms == a + b;
      FactsAgree(lines[..n], a, k);
      FactsInMore(lines, k);
      var l := lines[n];
      match l {
        case Request(_, _, _, channels, _, _) =>
          var ids :| IsDescending(ids, channels.Keys) && b == AskedAll(l, ids);
          DescendingDistinct(ids, channels.Keys);
          FactsAskedAll(a, l, ids, k);
        case Terminal(time, request, caller, channel, outcome) =>
          var m := Settled(Key(request, channel), time, caller, outcome);
          assert b == [m];
          if m.key == k { FactsMore(a, m); } else { FactsOther(a, m, k); }
        case Other =>
          assert a + [] == a;
      }
    }
  }

  lemma NoFacts(k: Key)
    ensures FactsOf([], k) == FactsIn([], k)
  {
  }

  lemma DescendingDistinct(ids: seq<string>, s: set<string>)
    requires IsDescending(ids, s)
    ensures forall i, j :: 0 <= i < j < |ids| ==> ids[i] != ids[j]
  {
    forall i, j | 0 <= i < j < |ids| ensures ids[i] != ids[j] { LexIrreflexive(ids[i]); }
  }

  // ----- the rows

  /** d is the one row of its delivery. */
  ghost predicate OnlyRow(rows: seq<Delivery>, d: Delivery) {
    exists i :: 0 <= i < |rows| && rows[i] == d && forall j :: 0 <= j < |rows| && j != i ==> rows[j].key != d.key
  }

  lemma RowOnce(ms: seq<Mention>, k: Key)
    requires Mentioned(ms, k)
    ensures Row(ms, k).key == k && OnlyRow(Rows(ms), Row(ms, k))
  {
    hide FirstAsked, FirstSettled, LastSettled, Resettled, Caller;
    var ks := Keys(ms);
    assert k in ks;
    var i :| 0 <= i < |ks| && ks[i] == k;
    assert Rows(ms)[i] == Row(ms, k);
    forall j | 0 <= j < |ks| && j != i ensures Rows(ms)[j].key != k { assert ks[j] != ks[i]; }
  }

  /** The row, from the facts. */
  function RowFrom(f: Facts, k: Key): Delivery
    requires f.opening.Some? && (f.asked.Some? || (f.first.Some? && f.last.Some?))
    requires f.asked.Some? ==> f.asked.value.Asked?
  {
    var m := f.opening.value;
    Delivery(
      Rounded(if f.asked.Some? then f.asked.value.time else f.first.value.time),
      if f.again.Some? then Rounded(f.again.value.time) else NEVER,
      k,
      if m.Settled? && m.caller == "" && f.asked.Some? then f.asked.value.caller else m.caller,
      if f.asked.Some? then f.asked.value.title else "",
      if f.asked.Some? then f.asked.value.priority else "",
      if f.last.Some? then f.last.value.outcome else f.asked.value.outcome)
  }

  lemma RowIs(ms: seq<Mention>, k: Key)
    requires Mentioned(ms, k)
    ensures var f := FactsOf(ms, k);
            && f.opening.Some? && (f.asked.Some? || (f.first.Some? && f.last.Some?))
            && (f.asked.Some? ==> f.asked.value.Asked?) && Row(ms, k) == RowFrom(f, k)
  {
    hide Resettled, Rounded;
    var m :| m in ms && m.key == k;
  }

  /** The delivery's row, from its lines. */
  lemma RowOfLines(lines: seq<Line>, rows: seq<Delivery>, k: Key) returns (d: Delivery)
    requires Folded(lines, rows) && exists i :: 0 <= i < |lines| && (Asks(lines[i], k) || Ends(lines[i], k))
    ensures var f := FactsIn(lines, k);
            && f.opening.Some? && (f.asked.Some? || (f.first.Some? && f.last.Some?))
            && (f.asked.Some? ==> f.asked.value.Asked?)
            && d == RowFrom(f, k) && OnlyRow(rows, d)
  {
    hide SaysAll, Rows, Row, OnlyRow;
    var ms :| SaysAll(lines, ms) && rows == Rows(ms);
    FactsAgree(lines, ms, k);
    OpenedMentioned(lines, ms, k);
    RowOnce(ms, k);
    RowIs(ms, k);
    d := Row(ms, k);
  }

  lemma OpenedMentioned(lines: seq<Line>, ms: seq<Mention>, k: Key)
    requires FactsOf(ms, k) == FactsIn(lines, k)
    ensures Mentioned(ms, k) <==> exists i :: 0 <= i < |lines| && (Asks(lines[i], k) || Ends(lines[i], k))
  {
    assert Mentioned(ms, k) <==> FactsIn(lines, k).opening.Some?;
  }

  /** Line i is the last that settles the delivery, or the first. */
  predicate IsLastEnd(lines: seq<Line>, i: nat, k: Key) {
    i < |lines| && Ends(lines[i], k) && forall j :: i < j < |lines| ==> !Ends(lines[j], k)
  }

  predicate IsFirstEnd(lines: seq<Line>, i: nat, k: Key) {
    i < |lines| && Ends(lines[i], k) && forall j :: 0 <= j < i ==> !Ends(lines[j], k)
  }

  /** What the first and the last terminal line, at f and l, make of the row of a request line at i. */
  predicate SettledAs(d: Delivery, asked: Line, i: nat, first: Line, f: nat, last: Line, l: nat)
    requires asked.Request? && first.Terminal? && last.Terminal?
  {
    var settled := if l > i then last.time else first.time;
    && d.outcome == last.outcome && d.settled == settled - settled % 1_000_000
    && d.caller == if f < i && first.caller != "" then first.caller else asked.caller
  }

  /**
   * d is the row that the request line at i makes for channel ch. It is accepted when that line says, to the
   * millisecond, and has its title and priority. Its outcome is the one of the last terminal line that names it, or the
   * one the request line gives the channel. It was settled when the last terminal line after the request line says, or
   * if all were before it when the first says, or never. The caller is that of whichever line came first, or of the
   * request line if that line has none.
   */
  ghost predicate AsRequested(d: Delivery, lines: seq<Line>, i: nat, ch: string)
    requires i < |lines| && lines[i].Request? && ch in lines[i].channels
  {
    var asked, k := lines[i], Key(lines[i].request, ch);
    && d.key == k && d.time == asked.time - asked.time % 1_000_000
    && d.title == asked.title && d.priority == asked.priority
    && ((forall j :: 0 <= j < |lines| ==> !Ends(lines[j], k)) ==>
          d.outcome == asked.channels[ch] && d.settled == NEVER && d.caller == asked.caller)
    && (forall l: nat, f: nat :: IsLastEnd(lines, l, k) && IsFirstEnd(lines, f, k) ==>
          SettledAs(d, asked, i, lines[f], f, lines[l], l))
  }

  /** A delivery whose request line is in the log has one row, and it says what that line and the terminal lines say. */
  lemma RequestRow(lines: seq<Line>, rows: seq<Delivery>, i: nat, ch: string) returns (d: Delivery)
    requires Folded(lines, rows) && i < |lines| && lines[i].Request? && ch in lines[i].channels
    requires forall j :: 0 <= j < i && lines[j].Request? && lines[j].request == lines[i].request ==>
               ch !in lines[j].channels
    ensures OnlyRow(rows, d) && AsRequested(d, lines, i, ch)
  {
    var k := Key(lines[i].request, ch);
    assert Asks(lines[i], k);
    assert forall j :: 0 <= j < i ==> !Asks(lines[j], k);
    hide FactsOf, FactsIn, Folded, OnlyRow, RowFrom, AsRequested, Asks, Ends;
    d := RowOfLines(lines, rows, k);
    RequestSays(lines, i, ch);
  }

  lemma RequestSays(lines: seq<Line>, i: nat, ch: string)
    requires i < |lines| && lines[i].Request? && ch in lines[i].channels
    requires forall j :: 0 <= j < i ==> !Asks(lines[j], Key(lines[i].request, ch))
    ensures var k := Key(lines[i].request, ch);
            var f := FactsIn(lines, k);
            f.opening.Some? && f.asked.Some? && f.asked.value.Asked? && AsRequested(RowFrom(f, k), lines, i, ch)
  {
    var k := Key(lines[i].request, ch);
    hide FactsIn, RowFrom, FirstAsk, FirstEnd, LastEnd, SettledAs, Ends, Asks;
    RequestFields(lines, i, k);
    var d := RowFrom(FactsIn(lines, k), k);
    if forall j :: 0 <= j < |lines| ==> !Ends(lines[j], k) { NoEnd(lines, k); }
    forall l: nat, f: nat | IsLastEnd(lines, l, k) && IsFirstEnd(lines, f, k)
      ensures SettledAs(d, lines[i], i, lines[f], f, lines[l], l) {
      EndsAt(lines, k, l, f);
    }
  }

  /** The fields of the row of a delivery whose request line is line i. */
  lemma RequestFields(lines: seq<Line>, i: nat, k: Key)
    requires i < |lines| && Asks(lines[i], k) && forall j :: 0 <= j < i ==> !Asks(lines[j], k)
    ensures var f := FactsIn(lines, k); f.opening.Some? && f.asked.Some? && f.asked.value.Asked?
    ensures var d, l := RowFrom(FactsIn(lines, k), k), lines[i];
            && d.key == k && d.time == l.time - l.time % 1_000_000 && d.title == l.title && d.priority == l.priority
            && (LastEnd(lines, k).None? ==>
                  d.outcome == l.channels[k.channel] && d.settled == NEVER && d.caller == l.caller)
            && (LastEnd(lines, k).Some? ==>
                  var z, a := LastEnd(lines, k).value, FirstEnd(lines, k).value;
                  SettledAs(d, l, i, lines[a], a, lines[z], z))
  {
    assert FirstAsk(lines, k) == Some(i);
    hide FirstAsk, FirstEnd, LastEnd;
  }

  lemma NoEnd(lines: seq<Line>, k: Key)
    requires forall j :: 0 <= j < |lines| ==> !Ends(lines[j], k)
    ensures LastEnd(lines, k).None?
  {
  }

  lemma EndsAt(lines: seq<Line>, k: Key, l: nat, f: nat)
    requires IsLastEnd(lines, l, k) && IsFirstEnd(lines, f, k)
    ensures LastEnd(lines, k) == Some(l) && FirstEnd(lines, k) == Some(f)
    ensures lines[l].Terminal? && lines[f].Terminal?
  {
    assert LastEnd(lines, k).Some? && FirstEnd(lines, k).Some?;
  }

  /**
   * A delivery whose request line is not in the log has one row as well, from its terminal lines alone: dated by the
   * first, with the outcome of the last, and without title and priority.
   */
  lemma TerminalRow(lines: seq<Line>, rows: seq<Delivery>, f: nat, l: nat, k: Key) returns (d: Delivery)
    requires Folded(lines, rows) && IsFirstEnd(lines, f, k) && IsLastEnd(lines, l, k)
    requires forall j :: 0 <= j < |lines| ==> !Asks(lines[j], k)
    ensures OnlyRow(rows, d) && d.key == k && d.title == "" && d.priority == ""
    ensures d.time == lines[f].time - lines[f].time % 1_000_000 && d.caller == lines[f].caller
    ensures d.outcome == lines[l].outcome
    ensures d.settled == if l > f then lines[l].time - lines[l].time % 1_000_000 else NEVER
  {
    hide FactsOf, Folded, OnlyRow;
    d := RowOfLines(lines, rows, k);
    EndsAt(lines, k, l, f);
    assert FirstAsk(lines, k).None?;
    hide FirstAsk, FirstEnd, LastEnd;
  }

  // ----- the order of the rows

  predicate Tells(l: Line, k: Key) {
    Asks(l, k) || Ends(l, k)
  }

  /** The first line that names the delivery. */
  function OpenAt(lines: seq<Line>, k: Key): (r: Option<nat>)
    ensures r.None? ==> forall j :: 0 <= j < |lines| ==> !Tells(lines[j], k)
    ensures r.Some? ==> r.value < |lines| && Tells(lines[r.value], k)
    ensures r.Some? ==> forall j :: 0 <= j < r.value ==> !Tells(lines[j], k)
  {
    if lines == [] then None
    else
      var n := |lines| - 1;
      var before := OpenAt(lines[..n], k);
      if before.Some? then before else if Tells(lines[n], k) then Some(n) else None
  }

  /** By the line that opens it, and within one request line from the last channel to the first. */
  predicate OpensBefore(lines: seq<Line>, a: Key, b: Key) {
    OpenAt(lines, a).Some? && OpenAt(lines, b).Some?
    && (OpenAt(lines, a).value < OpenAt(lines, b).value
        || (OpenAt(lines, a) == OpenAt(lines, b) && LexLess(b.channel, a.channel)))
  }

  ghost predicate InOrder(lines: seq<Line>, ks: seq<Key>) {
    && (forall k :: k in ks <==> OpenAt(lines, k).Some?)
    && forall i, j :: 0 <= i < j < |ks| ==> OpensBefore(lines, ks[i], ks[j])
  }

  /** The channels that a request line names for the first time. */
  function Fresh(ms: seq<Mention>, request: string, ids: seq<string>): (r: seq<Key>)
    ensures forall k :: k in r ==> k.request == request && k.channel in ids && !Mentioned(ms, k)
    ensures forall id :: id in ids && !Mentioned(ms, Key(request, id)) ==> Key(request, id) in r
  {
    if ids == [] then []
    else
      var n := |ids| - 1;
      assert ids == ids[..n] + [ids[n]];
      Fresh(ms, request, ids[..n]) + if Mentioned(ms, Key(request, ids[n])) then [] else [Key(request, ids[n])]
  }

  /** From the last channel to the first. */
  predicate Descends(ks: seq<Key>) {
    forall i, j :: 0 <= i < j < |ks| ==> LexLess(ks[j].channel, ks[i].channel)
  }

  lemma {:induction false} FreshDescends(ms: seq<Mention>, request: string, ids: seq<string>)
    requires forall i, j :: 0 <= i < j < |ids| ==> LexLess(ids[j], ids[i])
    ensures Descends(Fresh(ms, request, ids))
  {
    hide LexLess, Mentioned;
    if ids != [] {
      var n := |ids| - 1;
      FreshDescends(ms, request, ids[..n]);
      var front := Fresh(ms, request, ids[..n]);
      forall i | 0 <= i < |front| ensures LexLess(ids[n], front[i].channel) {
        assert front[i] in front;
        var j :| 0 <= j < n && ids[..n][j] == front[i].channel;
        assert ids[j] == ids[..n][j];
      }
      DescendsMore(front, Key(request, ids[n]));
    }
  }

  lemma DescendsMore(front: seq<Key>, last: Key)
    requires Descends(front) && forall i :: 0 <= i < |front| ==> LexLess(last.channel, front[i].channel)
    ensures Descends(front + [last]) && front + [] == front
  {
    hide LexLess;
  }

  lemma {:induction false} KeysAskedAll(ms: seq<Mention>, l: Line, ids: seq<string>)
    requires l.Request? && (forall ch :: ch in ids ==> ch in l.channels)
    requires forall i, j :: 0 <= i < j < |ids| ==> ids[i] != ids[j]
    ensures Keys(ms + AskedAll(l, ids)) == Keys(ms) + Fresh(ms, l.request, ids)
  {
    hide Keys, Mentioned;
    if ids == [] {
      assert ms + [] == ms;
    } else {
      var n := |ids| - 1;
      var front, last := ids[..n], ids[n];
      assert ids == front + [last] && last !in front;
      KeysAskedAll(ms, l, front);
      MentionedIn(ms, l, front, Key(l.request, last));
      KeysLast(ms, l, front, last);
    }
  }

  lemma KeysLast(ms: seq<Mention>, l: Line, front: seq<string>, last: string)
    requires l.Request? && (forall ch :: ch in front ==> ch in l.channels) && last in l.channels
    requires Keys(ms + AskedAll(l, front)) == Keys(ms) + Fresh(ms, l.request, front)
    requires Mentioned(ms + AskedAll(l, front), Key(l.request, last)) <==> Mentioned(ms, Key(l.request, last))
    ensures Keys(ms + AskedAll(l, front + [last])) == Keys(ms) + Fresh(ms, l.request, front + [last])
  {
    hide Keys, Mentioned;
    var ids, m := front + [last], AskedOf(l, last);
    assert ids[..|front|] == front && ids[|front|] == last;
    assert ms + AskedAll(l, ids) == ms + AskedAll(l, front) + [m];
    KeysStep(ms + AskedAll(l, front), m);
  }

  lemma MentionedIn(ms: seq<Mention>, l: Line, ids: seq<string>, k: Key)
    requires l.Request? && (forall ch :: ch in ids ==> ch in l.channels)
    requires Keys(ms + AskedAll(l, ids)) == Keys(ms) + Fresh(ms, l.request, ids)
    ensures k.channel !in ids ==> (Mentioned(ms + AskedAll(l, ids), k) <==> Mentioned(ms, k))
  {
    assert Mentioned(ms + AskedAll(l, ids), k) <==> k in Keys(ms + AskedAll(l, ids));
    assert Mentioned(ms, k) <==> k in Keys(ms);
  }

  /** New keys that the last line opens follow the old ones. */
  lemma OrderGrows(lines: seq<Line>, old': seq<Key>, added: seq<Key>)
    requires lines != [] && InOrder(lines[..|lines| - 1], old')
    requires forall k :: k in added <==> k !in old' && Tells(lines[|lines| - 1], k)
    requires Descends(added)
    ensures InOrder(lines, old' + added)
  {
    hide LexLess, Asks, Ends;
    var n := |lines| - 1;
    forall k ensures k in old' ==> OpenAt(lines, k) == OpenAt(lines[..n], k) {}
    forall k ensures k in added ==> OpenAt(lines, k) == Some(n) {}
    var ks := old' + added;
    forall i, j | 0 <= i < j < |ks| ensures OpensBefore(lines, ks[i], ks[j]) {
      if j < |old'| {
        assert ks[i] in old' && ks[j] in old' && OpensBefore(lines[..n], ks[i], ks[j]);
      } else {
        assert ks[j] in added;
        if i < |old'| { assert ks[i] in old'; } else { assert ks[i] in added; }
      }
    }
  }

  lemma {:induction false} KeysInOrder(lines: seq<Line>, ms: seq<Mention>)
    requires SaysAll(lines, ms)
    ensures InOrder(lines, Keys(ms))
  {
    hide InOrder, AskedAll, LexLess, Mentioned;
    if lines == [] {
      assert InOrder([], []) by { NothingOpens(); }
    } else {
      var n := |lines| - 1;
      var a, b :| SaysAll(lines[..n], a) && Says(lines[n], b) && ms == a + b;
      KeysInOrder(lines[..n], a);
      var l := lines[n];
      var added := [];
      match l {
        case Request(_, request, _, channels, _, _) =>
          var ids :| IsDescending(ids, channels.Keys) && b == AskedAll(l, ids);
          DescendingDistinct(ids, channels.Keys);
          KeysAskedAll(a, l, ids);
          FreshDescends(a, request, ids);
          added := Fresh(a, request, ids);
        case Terminal(time, request, caller, channel, outcome) =>
          var m := Settled(Key(request, channel), time, caller, outcome);
          assert b == [m];
          KeysStep(a, m);
          added := if Mentioned(a, m.key) then [] else [m.key];
        case Other =>
          assert a + [] == a;
      }
      assert Keys(ms) == Keys(a) + added;
      OrderGrows(lines, Keys(a), added);
    }
  }

  lemma NothingOpens()
    ensures InOrder([], [])
  {
  }

  predicate Told(lines: seq<Line>, k: Key) {
    exists i :: 0 <= i < |lines| && Tells(lines[i], k)
  }

  predicate HasRow(rows: seq<Delivery>, k: Key) {
    exists i :: 0 <= i < |rows| && rows[i].key == k
  }

  /**
   * The rows are those of the deliveries that some line names, in the order of the first line that does, and those of
   * one request line from its last channel to its first: read backwards, newest first and a to z.
   */
  lemma RowsInOrder(lines: seq<Line>, rows: seq<Delivery>)
    requires Folded(lines, rows)
    ensures forall k :: Told(lines, k) <==> HasRow(rows, k)
    ensures forall i, j :: 0 <= i < j < |rows| ==> OpensBefore(lines, rows[i].key, rows[j].key)
  {
    hide SaysAll, Keys, Row, LexLess;
    var ms :| SaysAll(lines, ms) && rows == Rows(ms);
    KeysInOrder(lines, ms);
    var ks := Keys(ms);
    RowKeys(ms);
    forall k ensures Told(lines, k) <==> HasRow(rows, k) {
      assert Told(lines, k) <==> OpenAt(lines, k).Some?;
      if k in ks {
        var j :| 0 <= j < |ks| && ks[j] == k;
        assert rows[j].key == k;
      }
    }
  }

  lemma RowKeys(ms: seq<Mention>)
    ensures |Rows(ms)| == |Keys(ms)| && forall i :: 0 <= i < |Rows(ms)| ==> Rows(ms)[i].key == Keys(ms)[i]
  {
    hide FirstAsked, FirstSettled, LastSettled, Resettled, Caller;
    forall i | 0 <= i < |Keys(ms)| ensures Rows(ms)[i].key == Keys(ms)[i] {
      assert Keys(ms)[i] in Keys(ms);
    }
  }
}
