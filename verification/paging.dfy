/** Reading the delivery log back: the lines of the tail, the query's filters, the newest rows first, and the cut. */
module Paging {
  import opened Wrappers
  import opened Text
  import opened Deliveries

  /** No limit, no floor and no channel are zero, NEVER and "". */
  datatype Query = Query(limit: int, since: int, channel: string)

  datatype Page = Page(deliveries: seq<Delivery>, truncated: bool)

  /** When a delivery last changed. */
  function Changed(d: Delivery): int {
    if d.settled > d.time then d.settled else d.time
  }

  predicate Matches(d: Delivery, q: Query) {
    && (q.channel == "" || d.key.channel == q.channel)
    && (q.since == NEVER || Changed(d) > Rounded(q.since))
  }

  /** The matching rows, the last of the file first. */
  function Matching(rows: seq<Delivery>, q: Query): seq<Delivery> {
    if rows == [] then []
    else
      var n := |rows| - 1;
      (if Matches(rows[n], q) then [rows[n]] else []) + Matching(rows[..n], q)
  }

  predicate NewestFirst(s: seq<Delivery>) {
    forall i, j :: 0 <= i < j < |s| ==> s[i].time >= s[j].time
  }

  /** The rows of one time, in order. */
  function At(s: seq<Delivery>, t: int): seq<Delivery> {
    if s == [] then [] else (if s[0].time == t then [s[0]] else []) + At(s[1..], t)
  }

  /** Puts d into a list that is newest first, before every row that is not newer. */
  function Put(d: Delivery, s: seq<Delivery>): seq<Delivery> {
    if s == [] || d.time >= s[0].time then [d] + s else [s[0]] + Put(d, s[1..])
  }

  /** The stable sort by time, newest first. */
  function Sorted(s: seq<Delivery>): seq<Delivery> {
    if s == [] then [] else Put(s[0], Sorted(s[1..]))
  }

  lemma {:induction false} PutOrders(d: Delivery, s: seq<Delivery>)
    requires NewestFirst(s)
    ensures NewestFirst(Put(d, s)) && Put(d, s) != [] && (Put(d, s)[0] == d || (s != [] && Put(d, s)[0] == s[0]))
  {
    if s != [] && d.time < s[0].time {
      PutOrders(d, s[1..]);
      var r := Put(d, s[1..]);
      forall j | 0 <= j < |r| ensures s[0].time >= r[j].time { assert r[0].time >= r[j].time; }
    }
  }

  lemma {:induction false} PutAdds(d: Delivery, s: seq<Delivery>)
    ensures multiset(Put(d, s)) == multiset(s) + multiset{d}
  {
    if s != [] && d.time < s[0].time {
      PutAdds(d, s[1..]);
      assert s == [s[0]] + s[1..];
    }
  }

  lemma {:induction false} PutAt(d: Delivery, s: seq<Delivery>, t: int)
    ensures At(Put(d, s), t) == (if d.time == t then [d] else []) + At(s, t)
  {
    hide At;
    AtCons(d, s, t);
    if s != [] && d.time < s[0].time {
      PutAt(d, s[1..], t);
      AtCons(s[0], Put(d, s[1..]), t);
      AtCons(s[0], s[1..], t);
      assert s == [s[0]] + s[1..];
    }
  }

  lemma AtCons(d: Delivery, s: seq<Delivery>, t: int)
    ensures At([d] + s, t) == (if d.time == t then [d] else []) + At(s, t)
  {
    assert ([d] + s)[1..] == s;
  }

  /** Sorted is a stable sort: ordered, a permutation, and rows of one time keep their order. */
  lemma {:induction false} SortedIsStable(s: seq<Delivery>, t: int)
    ensures NewestFirst(Sorted(s)) && multiset(Sorted(s)) == multiset(s) && At(Sorted(s), t) == At(s, t)
  {
    if s != [] {
      SortedIsStable(s[1..], t);
      PutOrders(s[0], Sorted(s[1..]));
      PutAdds(s[0], Sorted(s[1..]));
      PutAt(s[0], Sorted(s[1..]), t);
      assert s == [s[0]] + s[1..];
    }
  }

  lemma OwnTime(s: seq<Delivery>)
    ensures s != [] ==> At(s, s[0].time) != [] && At(s, s[0].time)[0] == s[0]
    ensures s == [] ==> forall t :: At(s, t) == []
  {
  }

  /** Nothing else is: two lists in order whose rows of each time agree are one list. */
  lemma {:induction false} StableUnique(a: seq<Delivery>, b: seq<Delivery>)
    requires NewestFirst(a) && NewestFirst(b) && forall t :: At(a, t) == At(b, t)
    ensures a == b
  {
    hide At;
    OwnTime(a);
    OwnTime(b);
    if a != [] {
      FirstAt(b, a[0].time);
      FirstAt(a, b[0].time);
      var d, x, y := a[0], a[1..], b[1..];
      assert a == [d] + x && b == [d] + y;
      forall t ensures At(x, t) == At(y, t) { SameTail(d, x, y, t); }
      StableUnique(x, y);
    }
  }

  lemma SameTail(d: Delivery, x: seq<Delivery>, y: seq<Delivery>, t: int)
    requires At([d] + x, t) == At([d] + y, t)
    ensures At(x, t) == At(y, t)
  {
    hide At;
    AtCons(d, x, t);
    AtCons(d, y, t);
    var head := if d.time == t then [d] else [];
    assert At(x, t) == (head + At(x, t))[|head|..] && At(y, t) == (head + At(y, t))[|head|..];
  }

  /** A list with a row of time t starts no earlier, and with that row if it starts at t. */
  lemma {:induction false} FirstAt(s: seq<Delivery>, t: int)
    requires NewestFirst(s) && At(s, t) != []
    ensures s != [] && s[0].time >= t
    ensures s[0].time == t ==> At(s, t)[0] == s[0]
  {
    if s[0].time != t { FirstAt(s[1..], t); }
  }

  /** The filter loop of page, walking backwards. */
  method Filter(rows: seq<Delivery>, q: Query) returns (out: seq<Delivery>)
    ensures out == Matching(rows, q)
  {
    hide Matching, Rounded;
    out := [];
    var since := Rounded(q.since);
    var i := |rows|;
    assert rows[..|rows|] == rows && out + Matching(rows, q) == Matching(rows, q);
    while i > 0
      invariant 0 <= i <= |rows| && out + Matching(rows[..i], q) == Matching(rows, q)
    {
      i := i - 1;
      var d := rows[i];
      MatchingStep(rows, q, i, out);
      if (q.channel != "" && d.key.channel != q.channel) || (q.since != NEVER && !(Changed(d) > since)) {
        continue;
      }
      out := out + [d];
    }
    NoneMatch(rows, q);
  }

  lemma NoneMatch(rows: seq<Delivery>, q: Query)
    ensures Matching(rows[..0], q) == []
  {
  }

  lemma MatchingStep(rows: seq<Delivery>, q: Query, i: nat, out: seq<Delivery>)
    requires i < |rows|
    ensures out + Matching(rows[..i + 1], q) ==
              out + (if Matches(rows[i], q) then [rows[i]] else []) + Matching(rows[..i], q)
  {
    assert rows[..i + 1][..i] == rows[..i];
  }

  /** page, as a function of the rows. */
  function PageOf(rows: seq<Delivery>, q: Query): Page {
    var out := Sorted(Matching(rows, q));
    if q.limit > 0 && |out| > q.limit then Page(out[..q.limit], true) else Page(out, false)
  }

  method Paginate(rows: seq<Delivery>, q: Query) returns (p: Page)
    ensures p == PageOf(rows, q)
  {
    var out := Filter(rows, q);
    out := Sorted(out);
    p := Page(out, false);
    if q.limit > 0 && |out| > q.limit {
      p := Page(out[..q.limit], true);
    }
  }

  lemma {:induction false} MatchingKeeps(rows: seq<Delivery>, q: Query)
    ensures forall d :: d in Matching(rows, q) <==> d in rows && Matches(d, q)
  {
    if rows != [] {
      var n := |rows| - 1;
      MatchingKeeps(rows[..n], q);
      assert rows == rows[..n] + [rows[n]];
    }
  }

  /** On the channel asked for, if any, and accepted or settled after the time asked for, if any, to the millisecond. */
  predicate Wanted(d: Delivery, q: Query) {
    && (q.channel == "" || d.key.channel == q.channel)
    && (q.since == 0 ||
        d.time > q.since - q.since % 1_000_000 || d.settled > q.since - q.since % 1_000_000)
  }

  lemma MatchesAreWanted(q: Query)
    ensures forall d :: Matches(d, q) <==> Wanted(d, q)
  {
  }

  /**
   * One page: the matches newest first, truncated exactly when some match was cut, the kept rows and the cut ones
   * together all the matches, and no cut row newer than a kept one.
   */
  lemma PageLaws(rows: seq<Delivery>, q: Query) returns (cut: seq<Delivery>)
    ensures var p := PageOf(rows, q);
            && NewestFirst(p.deliveries)
            && (p.truncated <==> cut != []) && (p.truncated ==> |p.deliveries| == q.limit)
            && multiset(p.deliveries) + multiset(cut) == multiset(Matching(rows, q))
            && (forall k, c :: k in p.deliveries && c in cut ==> c.time <= k.time)
            && (forall d :: d in p.deliveries || d in cut <==> d in rows && Wanted(d, q))
  {
    hide Sorted, Matching, Matches, Wanted, At;
    MatchesAreWanted(q);
    var m := Matching(rows, q);
    var out := Sorted(m);
    SortedIsStable(m, 0);
    MatchingKeeps(rows, q);
    cut := if q.limit > 0 && |out| > q.limit then out[q.limit..] else [];
    assert out == PageOf(rows, q).deliveries + cut;
    forall d ensures d in out <==> d in m { assert d in multiset(out) <==> d in multiset(m); }
  }

  /** The wanted rows of one time, the last of the file first. */
  function LastFirst(rows: seq<Delivery>, q: Query, t: int): seq<Delivery> {
    if rows == [] then []
    else LastFirst(rows[1..], q, t) + (if Wanted(rows[0], q) && rows[0].time == t then [rows[0]] else [])
  }

  lemma {:induction false} LastFirstNext(rows: seq<Delivery>, d: Delivery, q: Query, t: int)
    ensures LastFirst(rows + [d], q, t) == (if Wanted(d, q) && d.time == t then [d] else []) + LastFirst(rows, q, t)
  {
    hide Wanted;
    var all := rows + [d];
    if rows == [] {
      assert all == [d] && [d][1..] == [] && LastFirst([], q, t) == [];
    } else {
      LastFirstNext(rows[1..], d, q, t);
      assert all[0] == rows[0] && all[1..] == rows[1..] + [d];
    }
  }

  lemma {:induction false} MatchingAt(rows: seq<Delivery>, q: Query, t: int)
    ensures At(Matching(rows, q), t) == LastFirst(rows, q, t)
  {
    hide Wanted, Matches, At, LastFirst;
    MatchesAreWanted(q);
    if rows == [] {
      OwnTime([]);
      assert LastFirst([], q, t) == [] by { NoRows(q, t); }
    } else {
      var n := |rows| - 1;
      MatchingAt(rows[..n], q, t);
      assert rows == rows[..n] + [rows[n]];
      LastFirstNext(rows[..n], rows[n], q, t);
      AtCons(rows[n], Matching(rows[..n], q), t);
      assert [] + Matching(rows[..n], q) == Matching(rows[..n], q);
      assert [] + LastFirst(rows[..n], q, t) == LastFirst(rows[..n], q, t);
    }
  }

  lemma NoRows(q: Query, t: int)
    ensures LastFirst([], q, t) == []
  {
  }

  /** Deliveries accepted in one millisecond are shown in the order of the file, turned round. */
  lemma PageOrder(rows: seq<Delivery>, q: Query, t: int) returns (cut: seq<Delivery>)
    ensures var p := PageOf(rows, q);
            && At(p.deliveries + cut, t) == LastFirst(rows, q, t)
            && NewestFirst(p.deliveries + cut) && (p.truncated <==> cut != [])
  {
    hide Sorted, Matching, At, LastFirst;
    var out := Sorted(Matching(rows, q));
    SortedIsStable(Matching(rows, q), t);
    MatchingAt(rows, q, t);
    cut := if q.limit > 0 && |out| > q.limit then out[q.limit..] else [];
    assert out == PageOf(rows, q).deliveries + cut;
  }

  /** Where line i starts. */
  function LineStart(lines: seq<string>, i: nat): nat
    requires i <= |lines|
  {
    if i == 0 then 0 else |lines[0]| + 1 + LineStart(lines[1..], i - 1)
  }

  /** tail: the last max bytes of the file, and whether they start part-way through a line. */
  method Tail(file: string, max: nat) returns (buf: string, partial: bool)
    ensures var off := Offset(file, max);
            buf == file[off..] && (partial <==> off > 0 && file[off - 1] != '\n')
  {
    var size := |file|;
    var off := 0;
    if size > max { off := size - max; }
    var lead := 0;
    if off > 0 { off, lead := off - 1, 1; }
    buf := file[off..];
    partial := false;
    if lead > 0 && |buf| > 0 {
      partial := buf[0] != '\n';
      buf := buf[1..];
    }
  }

  /** Where the window begins. */
  function Offset(file: string, max: nat): (off: nat)
    ensures off <= |file|
  {
    if |file| > max then |file| - max else 0
  }

  /** The lines parseRecent looks at: the first is dropped when its beginning was cut off. */
  function LinesOf(buf: string, partial: bool): seq<string> {
    if partial then Split(buf)[1..] else Split(buf)
  }

  /** Cutting a file between two bytes cuts its lines in two, or cuts one line in half. */
  lemma {:induction false} SplitAfter(file: string, off: nat) returns (k: nat)
    requires 0 < off <= |file|
    ensures k < |Split(file)|
    ensures file[off - 1] == '\n' ==> Split(file[off..]) == Split(file)[k..] && LineStart(Split(file), k) == off
    ensures file[off - 1] != '\n' ==>
              && Split(file[off..])[1..] == Split(file)[k + 1..]
              && LineStart(Split(file), k) < off < LineStart(Split(file), k + 1)
  {
    var rest, lines := Split(file[1..]), Split(file);
    SplitFirst(file);
    if off == 1 {
      k := if file[0] == '\n' then 1 else 0;
      assert lines[0..] == lines;
    } else {
      hide Split, LineStart;
      var j := SplitAfter(file[1..], off - 1);
      assert file[1..][off - 1..] == file[off..];
      if file[0] == '\n' {
        k := j + 1;
        OneLineMore(rest, j);
        OneLineMore(rest, j + 1);
        assert lines[k..] == rest[j..] && lines[k + 1..] == rest[j + 1..];
      } else {
        k := j;
        Longer(rest, lines, k);
        Longer(rest, lines, k + 1);
        assert lines[k + 1..] == lines[1..][k..] == rest[k + 1..];
        if k > 0 { assert lines[k..] == lines[1..][k - 1..] == rest[k..]; } else { StartsAtNought(rest); }
      }
    }
  }

  /** The first byte of a file is a line end, or the first byte of its first line. */
  lemma SplitFirst(file: string)
    requires file != ""
    ensures var rest, lines := Split(file[1..]), Split(file);
            if file[0] == '\n' then lines == [""] + rest
            else lines != [] && rest != [] && lines[1..] == rest[1..] && |lines[0]| == |rest[0]| + 1
  {
  }

  lemma StartsAtNought(lines: seq<string>)
    ensures LineStart(lines, 0) == 0
  {
  }

  lemma OneLineMore(rest: seq<string>, j: nat)
    requires j <= |rest|
    ensures LineStart([""] + rest, j + 1) == 1 + LineStart(rest, j)
  {
    assert ([""] + rest)[1..] == rest;
  }

  /** One more byte on the first line moves every later line by one. */
  lemma Longer(a: seq<string>, b: seq<string>, k: nat)
    requires a != [] && b != [] && a[1..] == b[1..] && |b[0]| == |a[0]| + 1 && k <= |a|
    ensures |a| == |b| && LineStart(b, k) == LineStart(a, k) + if k > 0 then 1 else 0
  {
    assert |a[1..]| == |b[1..]|;
  }

  lemma {:induction false} LineStartGrows(lines: seq<string>, i: nat, j: nat)
    requires i < j <= |lines|
    ensures LineStart(lines, i) < LineStart(lines, j)
  {
    if i > 0 { LineStartGrows(lines[1..], i - 1, j - 1); }
  }

  /**
   * Tail reading loses and halves no record: for any file and window, the lines looked at are all the lines of the
   * file from some point on, and they are exactly those that start inside the last max bytes.
   */
  lemma TailLines(file: string, max: nat) returns (k: nat)
    ensures k <= |Split(file)|
    ensures var off := Offset(file, max);
            && LinesOf(file[off..], off > 0 && file[off - 1] != '\n') == Split(file)[k..]
            && (forall i :: 0 <= i < k ==> LineStart(Split(file), i) < off)
            && (forall i :: k <= i < |Split(file)| ==> off <= LineStart(Split(file), i))
  {
    var off, lines := Offset(file, max), Split(file);
    if off == 0 {
      k := 0;
      assert file[0..] == file;
    } else {
      var j := SplitAfter(file, off);
      k := if file[off - 1] == '\n' then j else j + 1;
      forall i | 0 <= i < k ensures LineStart(lines, i) < off { if i < j { LineStartGrows(lines, i, j); } }
      forall i | k <= i < |lines| ensures off <= LineStart(lines, i) { if k < i { LineStartGrows(lines, k, i); } }
    }
  }
}
