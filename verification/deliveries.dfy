/** Folding the lines of the delivery log into one row per request and channel. */
module Deliveries {
  import opened Wrappers
  import opened Names

  const MILLISECOND: int := 1_000_000

  /** Time.Truncate to the millisecond. */
  function Rounded(t: int): int {
    t - t % MILLISECOND
  }

  datatype Key = Key(request: string, channel: string)

  /** One line of the log, as far as deliveries go. A line that does not parse, or is of another kind, is Other. */
  datatype Line =
    | Request(time: int, request: string, caller: string, channels: map<string, string>, title: string,
              priority: string)
    | Terminal(time: int, request: string, caller: string, channel: string, outcome: string)
    | Other

  /** What one line says about one delivery. */
  datatype Mention =
    | Asked(key: Key, time: int, caller: string, title: string, priority: string, outcome: string)
    | Settled(key: Key, time: int, caller: string, outcome: string)

  datatype Delivery = Delivery(time: int, settled: int, key: Key, caller: string, title: string, priority: string,
                               outcome: string)

  /** The zero time. */
  const NEVER: int := 0

  /** What a fan-out says about one of its channels. */
  function AskedOf(l: Line, ch: string): Mention
    requires l.Request? && ch in l.channels
  {
    Asked(Key(l.request, ch), l.time, l.caller, l.title, l.priority, l.channels[ch])
  }

  function AskedAll(l: Line, chs: seq<string>): seq<Mention>
    requires l.Request? && forall ch :: ch in chs ==> ch in l.channels
  {
    if chs == [] then [] else AskedAll(l, chs[..|chs| - 1]) + [AskedOf(l, chs[|chs| - 1])]
  }

  /**
   * The first line that asks for k, the first and the last that settle it, and the last that settles it after it was
   * asked for.
   */
  function FirstAsked(ms: seq<Mention>, k: Key): (r: Option<Mention>)
    ensures r.Some? ==> r.value in ms && r.value.Asked? && r.value.key == k
    ensures r.None? <==> forall m :: m in ms && m.Asked? ==> m.key != k
  {
    if ms == [] then None
    else
      var before, m := FirstAsked(ms[..|ms| - 1], k), ms[|ms| - 1];
      if before.Some? then before else if m.Asked? && m.key == k then Some(m) else None
  }

  function FirstSettled(ms: seq<Mention>, k: Key): (r: Option<Mention>)
    ensures r.Some? ==> r.value in ms && r.value.Settled? && r.value.key == k
    ensures r.None? <==> forall m :: m in ms && m.Settled? ==> m.key != k
  {
    if ms == [] then None
    else
      var before, m := FirstSettled(ms[..|ms| - 1], k), ms[|ms| - 1];
      if before.Some? then before else if m.Settled? && m.key == k then Some(m) else None
  }

  function LastSettled(ms: seq<Mention>, k: Key): (r: Option<Mention>)
    ensures r.Some? ==> r.value in ms && r.value.Settled? && r.value.key == k
    ensures r.None? <==> FirstSettled(ms, k).None?
  {
    if ms == [] then None
    else
      var m := ms[|ms| - 1];
      if m.Settled? && m.key == k then Some(m) else LastSettled(ms[..|ms| - 1], k)
  }

  /** The last settlement that follows another line about k, or None. */
  function Resettled(ms: seq<Mention>, k: Key): (r: Option<Mention>)
    ensures r.Some? ==> r.value in ms && r.value.Settled? && r.value.key == k
  {
    if ms == [] then None
    else
      var before, m := ms[..|ms| - 1], ms[|ms| - 1];
      if m.Settled? && m.key == k && Mentioned(before, k) then Some(m)
      else if m.Asked? && m.key == k && FirstAsked(before, k).None? then FirstSettled(before, k)
      else Resettled(before, k)
  }

  predicate Mentioned(ms: seq<Mention>, k: Key) {
    exists m :: m in ms && m.key == k
  }

  /**
   * The row for k: accepted when it was first asked for, with the outcome of its last settlement. A delivery whose
   * request line is not there is dated by its first terminal line and has no title.
   */
  function Row(ms: seq<Mention>, k: Key): Delivery
    requires Mentioned(ms, k)
  {
    var asked, first, last := FirstAsked(ms, k), FirstSettled(ms, k), LastSettled(ms, k);
    Delivery(
      Rounded(if asked.Some? then asked.value.time else first.value.time),
      if Resettled(ms, k).Some? then Rounded(Resettled(ms, k).value.time) else NEVER,
      k,
      Caller(ms, k),
      if asked.Some? then asked.value.title else "",
      if asked.Some? then asked.value.priority else "",
      if last.Some? then last.value.outcome else asked.value.outcome)
  }

  /** The caller on the first line about k, or on its request line if that first line has none. */
  function Caller(ms: seq<Mention>, k: Key): string
    requires Mentioned(ms, k)
  {
    var m := FirstMention(ms, k);
    if m.Settled? && m.caller == "" && FirstAsked(ms, k).Some? then FirstAsked(ms, k).value.caller else m.caller
  }

  function FirstMention(ms: seq<Mention>, k: Key): (m: Mention)
    requires Mentioned(ms, k)
    ensures m in ms && m.key == k
  {
    var before := ms[..|ms| - 1];
    if Mentioned(before, k) then FirstMention(before, k)
    else
      assert ms == before + [ms[|ms| - 1]];
      ms[|ms| - 1]
  }

  /** The deliveries in order of their first line. */
  function Keys(ms: seq<Mention>): (ks: seq<Key>)
    ensures forall k :: k in ks <==> Mentioned(ms, k)
    ensures forall i, j :: 0 <= i < j < |ks| ==> ks[i] != ks[j]
  {
    if ms == [] then []
    else
      var before, m := ms[..|ms| - 1], ms[|ms| - 1];
      assert ms == before + [m];
      var ks := Keys(before);
      if m.key in ks then ks else ks + [m.key]
  }

  function Rows(ms: seq<Mention>): seq<Delivery> {
    var ks := Keys(ms);
    seq(|ks|, i requires 0 <= i < |ks| => Row(ms, ks[i]))
  }

  lemma OneMore(ms: seq<Mention>, m: Mention)
    ensures (ms + [m])[..|ms|] == ms && (ms + [m])[|ms|] == m && |ms + [m]| == |ms| + 1
    ensures forall k :: Mentioned(ms + [m], k) <==> Mentioned(ms, k) || m.key == k
  {
    assert m in ms + [m];
    forall k ensures Mentioned(ms + [m], k) <==> Mentioned(ms, k) || m.key == k {
      if Mentioned(ms, k) {
        var x :| x in ms && x.key == k;
        assert x in ms + [m];
      }
    }
  }

  /** A line about another delivery leaves a row alone. */
  lemma RowOther(ms: seq<Mention>, m: Mention, k: Key)
    requires Mentioned(ms, k) && m.key != k
    ensures Mentioned(ms + [m], k) && Row(ms + [m], k) == Row(ms, k)
  {
    OneMore(ms, m);
  }

  /** A first line makes a row. */
  lemma RowNew(ms: seq<Mention>, m: Mention)
    requires !Mentioned(ms, m.key)
    ensures Mentioned(ms + [m], m.key)
    ensures Row(ms + [m], m.key) ==
              Delivery(Rounded(m.time), NEVER, m.key, m.caller, if m.Asked? then m.title else "",
                       if m.Asked? then m.priority else "", m.outcome)
  {
    OneMore(ms, m);
    Unmentioned(ms, m.key);
  }

  lemma {:induction false} Unmentioned(ms: seq<Mention>, k: Key)
    requires !Mentioned(ms, k)
    ensures FirstAsked(ms, k).None? && FirstSettled(ms, k).None? && LastSettled(ms, k).None? && Resettled(ms, k).None?
  {
  }

  /** A repeated request line changes nothing. */
  lemma RowAskedAgain(ms: seq<Mention>, m: Mention)
    requires m.Asked? && FirstAsked(ms, m.key).Some?
    ensures Mentioned(ms, m.key) && Mentioned(ms + [m], m.key) && Row(ms + [m], m.key) == Row(ms, m.key)
  {
    OneMore(ms, m);
  }

  /** A request line that follows its own terminal line dates the row and gives it its context. */
  lemma RowAskedLate(ms: seq<Mention>, m: Mention)
    requires m.Asked? && Mentioned(ms, m.key) && FirstAsked(ms, m.key).None?
    ensures Mentioned(ms + [m], m.key)
    ensures var row := Row(ms, m.key);
            Row(ms + [m], m.key) ==
              row.(settled := row.time, time := Rounded(m.time), title := m.title, priority := m.priority,
                   caller := if row.caller == "" then m.caller else row.caller)
  {
    OneMore(ms, m);
    var x :| x in ms && x.key == m.key;
    assert FirstSettled(ms, m.key).Some?;
    assert FirstMention(ms, m.key).Settled?;
  }

  /** A terminal line for a known delivery is its outcome now. */
  lemma RowSettled(ms: seq<Mention>, m: Mention)
    requires m.Settled? && Mentioned(ms, m.key)
    ensures Mentioned(ms + [m], m.key)
    ensures Row(ms + [m], m.key) == Row(ms, m.key).(outcome := m.outcome, settled := Rounded(m.time))
  {
    OneMore(ms, m);
  }

  /** The rows and where each is. */
  ghost predicate Placed(ms: seq<Mention>, out: seq<Delivery>, index: map<Key, nat>) {
    && |out| == |Keys(ms)|
    && (forall k :: k in index <==> Mentioned(ms, k))
    && (forall k :: k in index ==> index[k] < |out| && Keys(ms)[index[k]] == k && out[index[k]] == Row(ms, k))
  }

  /** Which rows still lack their request line. */
  ghost predicate Lacking(ms: seq<Mention>, awaiting: set<Key>) {
    forall k :: k in awaiting <==> Mentioned(ms, k) && FirstAsked(ms, k).None?
  }

  ghost predicate Represents(ms: seq<Mention>, out: seq<Delivery>, index: map<Key, nat>, awaiting: set<Key>) {
    Placed(ms, out, index) && Lacking(ms, awaiting)
  }

  lemma RepresentsRows(ms: seq<Mention>, out: seq<Delivery>, index: map<Key, nat>, awaiting: set<Key>)
    requires Represents(ms, out, index, awaiting)
    ensures out == Rows(ms)
  {
    forall i | 0 <= i < |out| ensures out[i] == Rows(ms)[i] {
      var k := Keys(ms)[i];
      assert k in Keys(ms);
      assert index[k] == i;
    }
  }

  lemma AskedStep(ms: seq<Mention>, m: Mention)
    ensures forall k :: FirstAsked(ms + [m], k).None? <==> FirstAsked(ms, k).None? && !(m.Asked? && m.key == k)
  {
    OneMore(ms, m);
  }

  /** Fills in what a terminal line had no room for, and keeps the outcome it settled. */
  method InContext(was: Delivery, m: Mention) returns (row: Delivery)
    requires m.Asked?
    ensures row == was.(settled := was.time, time := Rounded(m.time), title := m.title, priority := m.priority,
                        caller := if was.caller == "" then m.caller else was.caller)
  {
    row := was.(settled := was.time, time := Rounded(m.time));
    row := row.(title := m.title, priority := m.priority);
    if row.caller == "" { row := row.(caller := m.caller); }
  }

  lemma KeysStep(ms: seq<Mention>, m: Mention)
    ensures Keys(ms + [m]) == if Mentioned(ms, m.key) then Keys(ms) else Keys(ms) + [m.key]
  {
    OneMore(ms, m);
  }

  /** The known row of m's delivery has been brought up to date. */
  lemma Updated(ms: seq<Mention>, m: Mention, out: seq<Delivery>, index: map<Key, nat>, awaiting: set<Key>,
                row: Delivery)
    requires Represents(ms, out, index, awaiting) && m.key in index && Mentioned(ms + [m], m.key)
    requires row == Row(ms + [m], m.key)
    ensures Represents(ms + [m], out[index[m.key] := row], index, if m.Asked? then awaiting - {m.key} else awaiting)
  {
    hide Row, FirstAsked, Keys, Mentioned, Lacking;
    OneMore(ms, m);
    KeysStep(ms, m);
    LackingStep(ms, m, awaiting);
    forall k | k in index && k != m.key ensures index[k] != index[m.key] && Row(ms + [m], k) == Row(ms, k) {
      RowOther(ms, m, k);
    }
  }

  lemma LackingStep(ms: seq<Mention>, m: Mention, awaiting: set<Key>)
    requires Lacking(ms, awaiting)
    ensures Lacking(ms + [m], if m.Asked? then awaiting - {m.key}
                              else if Mentioned(ms, m.key) then awaiting else awaiting + {m.key})
  {
    hide FirstAsked, Mentioned;
    OneMore(ms, m);
    AskedStep(ms, m);
    if !Mentioned(ms, m.key) { Unmentioned(ms, m.key); }
  }

  /** A new row has been added at the end. */
  lemma Appended(ms: seq<Mention>, m: Mention, out: seq<Delivery>, index: map<Key, nat>, awaiting: set<Key>,
                row: Delivery)
    requires Represents(ms, out, index, awaiting) && m.key !in index && Mentioned(ms + [m], m.key)
    requires row == Row(ms + [m], m.key)
    ensures Represents(ms + [m], out + [row], index[m.key := |out|], if m.Asked? then awaiting else awaiting + {m.key})
  {
    PlacedLast(ms, m, out, index, row);
    assert !Mentioned(ms, m.key) && m.key !in awaiting;
    hide Placed, Row, FirstAsked, Mentioned;
    LackingStep(ms, m, awaiting);
    assert m.Asked? ==> awaiting - {m.key} == awaiting;
  }

  lemma PlacedLast(ms: seq<Mention>, m: Mention, out: seq<Delivery>, index: map<Key, nat>, row: Delivery)
    requires Placed(ms, out, index) && m.key !in index && Mentioned(ms + [m], m.key)
    requires row == Row(ms + [m], m.key)
    ensures Placed(ms + [m], out + [row], index[m.key := |out|])
  {
    hide Row, Keys, Mentioned;
    OneMore(ms, m);
    KeysStep(ms, m);
    forall k | k in index ensures Row(ms + [m], k) == Row(ms, k) { RowOther(ms, m, k); }
  }

  lemma Known(ms: seq<Mention>, out: seq<Delivery>, index: map<Key, nat>, awaiting: set<Key>, k: Key)
    requires Represents(ms, out, index, awaiting)
    ensures k in index <==> Mentioned(ms, k)
    ensures k in index ==> index[k] < |out| && out[index[k]] == Row(ms, k)
    ensures k in index ==> (k in awaiting <==> FirstAsked(ms, k).None?)
    ensures k !in index ==> k !in awaiting
  {
  }

  /** One channel of a request line. */
  method AddAsked(m: Mention, ghost ms: seq<Mention>, out: seq<Delivery>, index: map<Key, nat>, awaiting: set<Key>)
      returns (out': seq<Delivery>, index': map<Key, nat>, awaiting': set<Key>)
    requires m.Asked? && Represents(ms, out, index, awaiting)
    ensures Represents(ms + [m], out', index', awaiting')
  {
    Known(ms, out, index, awaiting, m.key);
    hide Represents, Row, FirstAsked, Mentioned, Rounded;
    if m.key in index {
      out', awaiting' := AskedKnown(m, ms, out, index, awaiting);
      index' := index;
    } else {
      var row := Delivery(Rounded(m.time), NEVER, m.key, m.caller, m.title, m.priority, m.outcome);
      RowNew(ms, m);
      Appended(ms, m, out, index, awaiting, row);
      out', index', awaiting' := out + [row], index[m.key := |out|], awaiting;
    }
  }

  /** A request line of a delivery that has a row: news only if the row still lacks it. */
  method AskedKnown(m: Mention, ghost ms: seq<Mention>, out: seq<Delivery>, index: map<Key, nat>, awaiting: set<Key>)
      returns (out': seq<Delivery>, awaiting': set<Key>)
    requires m.Asked? && Represents(ms, out, index, awaiting) && m.key in index
    ensures Represents(ms + [m], out', index, awaiting')
  {
    Known(ms, out, index, awaiting, m.key);
    hide Represents, Row, FirstAsked, Mentioned, Rounded;
    var i := index[m.key];
    if m.key !in awaiting {
      RowAskedAgain(ms, m);
      Updated(ms, m, out, index, awaiting, out[i]);
      assert out[i := out[i]] == out && awaiting - {m.key} == awaiting;
      return out, awaiting;
    }
    RowAskedLate(ms, m);
    var row := InContext(out[i], m);
    Updated(ms, m, out, index, awaiting, row);
    out', awaiting' := out[i := row], awaiting - {m.key};
  }

  /** A terminal line. */
  method AddSettled(m: Mention, ghost ms: seq<Mention>, out: seq<Delivery>, index: map<Key, nat>, awaiting: set<Key>)
      returns (out': seq<Delivery>, index': map<Key, nat>, awaiting': set<Key>)
    requires m.Settled? && Represents(ms, out, index, awaiting)
    ensures Represents(ms + [m], out', index', awaiting')
  {
    Known(ms, out, index, awaiting, m.key);
    hide Represents, Row, FirstAsked, Mentioned;
    out', index', awaiting' := out, index, awaiting;
    if m.key in index {
      var i := index[m.key];
      RowSettled(ms, m);
      var row := out[i].(outcome := m.outcome, settled := Rounded(m.time));
      Updated(ms, m, out, index, awaiting, row);
      out' := out[i := row];
      return;
    }
    index' := index[m.key := |out|];
    awaiting' := awaiting + {m.key};
    var row := Delivery(Rounded(m.time), NEVER, m.key, m.caller, "", "", m.outcome);
    RowNew(ms, m);
    Appended(ms, m, out, index, awaiting, row);
    out' := out + [row];
  }

  /** The ids in descending order. */
  ghost predicate IsDescending(ids: seq<string>, s: set<string>) {
    && (forall id :: id in ids <==> id in s)
    && forall i, j :: 0 <= i < j < |ids| ==> LexLess(ids[j], ids[i])
  }

  /** sortedChannels: descending, because page reverses the whole list. */
  method SortedChannels(channels: map<string, string>) returns (ids: seq<string>)
    ensures IsDescending(ids, channels.Keys)
  {
    ids := [];
    var rest := channels.Keys;
    while rest != {}
      invariant rest <= channels.Keys && IsDescending(ids, channels.Keys - rest)
      decreases rest
    {
      var id :| id in rest;
      var i := 0;
      while i < |ids| && LexLess(id, ids[i])
        invariant i <= |ids| && forall j :: 0 <= j < i ==> LexLess(id, ids[j])
      {
        i := i + 1;
      }
      Inserted(ids, id, i, channels.Keys - rest);
      ids := ids[..i] + [id] + ids[i..];
      rest := rest - {id};
      assert channels.Keys - rest == channels.Keys - (rest + {id}) + {id};
    }
  }

  lemma Inserted(ids: seq<string>, id: string, i: nat, s: set<string>)
    requires IsDescending(ids, s) && id !in s && i <= |ids|
    requires forall j :: 0 <= j < i ==> LexLess(id, ids[j])
    requires i < |ids| ==> !LexLess(id, ids[i])
    ensures IsDescending(ids[..i] + [id] + ids[i..], s + {id})
  {
    hide LexLess;
    var r := ids[..i] + [id] + ids[i..];
    InsertedMember(ids, id, i);
    InsertedBelow(ids, id, i, s);
    forall a, b | 0 <= a < b < |r| ensures LexLess(r[b], r[a]) {
      assert a != i && b != i ==> r[a] == ids[if a < i then a else a - 1] && r[b] == ids[if b < i then b else b - 1];
    }
  }

  lemma InsertedMember(ids: seq<string>, id: string, i: nat)
    requires i <= |ids|
    ensures forall x :: x in ids[..i] + [id] + ids[i..] <==> x in ids || x == id
  {
    assert ids == ids[..i] + ids[i..];
  }

  lemma InsertedBelow(ids: seq<string>, id: string, i: nat, s: set<string>)
    requires IsDescending(ids, s) && id !in s && i <= |ids|
    requires i < |ids| ==> !LexLess(id, ids[i])
    ensures forall k :: i <= k < |ids| ==> LexLess(ids[k], id)
  {
    hide LexLess;
    if i < |ids| {
      assert ids[i] in ids;
      LexTotal(ids[i], id);
      forall k | i < k < |ids| ensures LexLess(ids[k], id) { LexTransitive(ids[k], ids[i], id); }
    }
  }

  /** What a line says, in the order the fold takes it in. */
  ghost predicate Says(l: Line, ms: seq<Mention>) {
    match l
    case Request(_, _, _, channels, _, _) => exists ids :: IsDescending(ids, channels.Keys) && ms == AskedAll(l, ids)
    case Terminal(time, request, caller, channel, outcome) =>
      ms == [Settled(Key(request, channel), time, caller, outcome)]
    case Other => ms == []
  }

  /** What the lines say one after another. */
  ghost predicate SaysAll(lines: seq<Line>, ms: seq<Mention>) {
    if lines == [] then ms == []
    else
      exists a, b :: SaysAll(lines[..|lines| - 1], a) && Says(lines[|lines| - 1], b) && ms == a + b
  }

  /** One line of the log. */
  method AddLine(l: Line, ghost ms: seq<Mention>, out: seq<Delivery>, index: map<Key, nat>, awaiting: set<Key>)
      returns (out': seq<Delivery>, index': map<Key, nat>, awaiting': set<Key>, ghost said: seq<Mention>)
    requires Represents(ms, out, index, awaiting)
    ensures Says(l, said) && Represents(ms + said, out', index', awaiting')
  {
    hide Represents;
    out', index', awaiting', said := out, index, awaiting, [];
    assert ms + [] == ms;
    match l {
      case Request(_, _, _, channels, _, _) =>
        var ids := SortedChannels(channels);
        for j := 0 to |ids|
          invariant said == AskedAll(l, ids[..j]) && Represents(ms + said, out', index', awaiting')
        {
          assert ids[..j + 1][..j] == ids[..j];
          var m := AskedOf(l, ids[j]);
          out', index', awaiting' := AddAsked(m, ms + said, out', index', awaiting');
          assert ms + (said + [m]) == ms + said + [m];
          said := said + [m];
        }
        assert ids[..|ids|] == ids;
      case Terminal(time, request, caller, channel, outcome) =>
        var m := Settled(Key(request, channel), time, caller, outcome);
        out', index', awaiting' := AddSettled(m, ms, out, index, awaiting);
        said := [m];
      case Other =>
    }
  }

  lemma SaysMore(lines: seq<Line>, i: nat, before: seq<Mention>, said: seq<Mention>)
    requires i < |lines| && SaysAll(lines[..i], before) && Says(lines[i], said)
    ensures SaysAll(lines[..i + 1], before + said)
  {
    assert lines[..i + 1][..i] == lines[..i] && lines[..i + 1][i] == lines[i];
  }

  /** out holds the declarative rows of what the lines say. */
  ghost predicate Folded(lines: seq<Line>, out: seq<Delivery>) {
    exists ms :: SaysAll(lines, ms) && out == Rows(ms)
  }

  /** parseRecent, the fold: one row per request and channel, as the declarative rows say. */
  method Fold(lines: seq<Line>) returns (out: seq<Delivery>)
    ensures Folded(lines, out)
  {
    hide Represents, SaysAll, Says, Rows;
    var index, awaiting := map[], {};
    ghost var ms: seq<Mention> := [];
    out := [];
    Nothing();
    for i := 0 to |lines|
      invariant SaysAll(lines[..i], ms) && Represents(ms, out, index, awaiting)
    {
      ghost var said;
      out, index, awaiting, said := AddLine(lines[i], ms, out, index, awaiting);
      SaysMore(lines, i, ms, said);
      ms := ms + said;
    }
    assert lines[..|lines|] == lines;
    RepresentsRows(ms, out, index, awaiting);
  }

  lemma Nothing()
    ensures SaysAll([], []) && Represents([], [], map[], {})
  {
  }
}
