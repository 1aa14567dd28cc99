/**
 * Recent reads a window at the end of the log and grows it until it holds what was asked for. A window that begins on a
 * line boundary ends the growth although the file goes on before it, and then what lies before it is not looked at.
 */
module Windows {
  import opened Wrappers
  import opened Text
  import opened Names
  import opened Deliveries
  import opened OrderFree
  import opened Paging

  const MIB: nat := 1024 * 1024
  const INITIAL_TAIL: nat := 2 * MIB
  const MAX_TAIL: nat := 16 * MIB

  /** The lines of a window, decoded. */
  function Decoded(decode: string -> Line, lines: seq<string>): seq<Line> {
    seq(|lines|, i requires 0 <= i < |lines| => decode(lines[i]))
  }

  /** The lines that the last `window` bytes are read as. */
  function LinesAt(file: string, decode: string -> Line, window: nat): seq<Line> {
    var off := Offset(file, window);
    Decoded(decode, LinesOf(file[off..], Partial(file, window)))
  }

  /** The window's first byte is inside a line. */
  predicate Partial(file: string, window: nat) {
    var off := Offset(file, window);
    off > 0 && file[off - 1] != '\n'
  }

  // ----- every list of lines folds, in one way

  lemma {:induction false} Descending(s: set<string>) returns (ids: seq<string>)
    ensures IsDescending(ids, s)
  {
    if s == {} {
      ids := [];
    } else {
      var id :| id in s;
      var rest := Descending(s - {id});
      var i := 0;
      hide LexLess;
      while i < |rest| && LexLess(id, rest[i])
        invariant i <= |rest| && forall j :: 0 <= j < i ==> LexLess(id, rest[j])
      {
        i := i + 1;
      }
      Inserted(rest, id, i, s - {id});
      ids := rest[..i] + [id] + rest[i..];
      assert s == s - {id} + {id};
    }
  }

  lemma {:induction false} SaysSomething(lines: seq<Line>) returns (ms: seq<Mention>)
    ensures SaysAll(lines, ms)
  {
    hide AskedAll;
    if lines == [] {
      ms := [];
    } else {
      var n := |lines| - 1;
      var before := SaysSomething(lines[..n]);
      var l := lines[n];
      var said := [];
      match l {
        case Request(_, _, _, channels, _, _) =>
          var ids := Descending(channels.Keys);
          said := AskedAll(l, ids);
        case Terminal(time, request, caller, channel, outcome) =>
          said := [Settled(Key(request, channel), time, caller, outcome)];
        case Other =>
      }
      assert Says(l, said);
      ms := before + said;
    }
  }

  lemma FoldExists(lines: seq<Line>)
    ensures exists rows :: Folded(lines, rows)
  {
    var ms := SaysSomething(lines);
    hide SaysAll, Rows;
    assert Folded(lines, Rows(ms));
  }

  /** The rows that the lines fold into. */
  ghost function RowsOf(lines: seq<Line>): (rows: seq<Delivery>)
    ensures Folded(lines, rows)
  {
    FoldExists(lines);
    var rows :| Folded(lines, rows);
    rows
  }

  /** The page of what the last `window` bytes say. */
  ghost function PageAt(file: string, decode: string -> Line, q: Query, window: nat): Page {
    PageOf(RowsOf(LinesAt(file, decode, window)), q)
  }

  // ----- where the growth stops

  predicate Fills(p: Page, q: Query) {
    q.limit > 0 && |p.deliveries| >= q.limit
  }

  /** The window has too few rows and begins inside a line, so a larger one is tried. */
  ghost predicate Grows(file: string, decode: string -> Line, q: Query, window: nat) {
    !Fills(PageAt(file, decode, q, window), q) && Partial(file, window)
  }

  /** The window that answers the query. */
  ghost function StopsAt(file: string, decode: string -> Line, q: Query): nat {
    if !Grows(file, decode, q, 2 * MIB) then 2 * MIB else if !Grows(file, decode, q, 8 * MIB) then 8 * MIB else 32 * MIB
  }

  /** parseRecent: the fold and the page of one window. */
  method ParseRecent(buf: string, partial: bool, decode: string -> Line, q: Query) returns (p: Page)
    ensures p == PageOf(RowsOf(Decoded(decode, LinesOf(buf, partial))), q)
  {
    hide PageOf, Folded;
    var rows := Fold(Decoded(decode, LinesOf(buf, partial)));
    FoldDeterminate(Decoded(decode, LinesOf(buf, partial)), rows, RowsOf(Decoded(decode, LinesOf(buf, partial))));
    p := Paginate(rows, q);
  }

  /** Recent: the window grows from 2 to 8 to 32 MiB, three passes at most. */
  method Recent(file: string, decode: string -> Line, q: Query) returns (p: Page, passes: nat)
    ensures p == PageAt(file, decode, q, StopsAt(file, decode, q))
    ensures (passes, StopsAt(file, decode, q)) in {(1, 2 * MIB), (2, 8 * MIB), (3, 32 * MIB)}
  {
    hide PageOf, Folded, RowsOf, Fills;
    var window := INITIAL_TAIL;
    passes := 1;
    while true
      invariant (passes, window) in {(1, 2 * MIB), (2, 8 * MIB), (3, 32 * MIB)}
      invariant passes > 1 ==> Grows(file, decode, q, 2 * MIB)
      invariant passes > 2 ==> Grows(file, decode, q, 8 * MIB)
      decreases 3 - passes
    {
      var buf, partial := Tail(file, window);
      p := ParseRecent(buf, partial, decode, q);
      var enough := Fills(p, q);
      if enough || !partial || window >= MAX_TAIL {
        return;
      }
      window, passes := window * 4, passes + 1;
    }
  }

  /** The file goes on before the window, and the window begins on a line boundary. */
  predicate CutBetweenLines(file: string, window: nat) {
    |file| > window && file[|file| - window - 1] == '\n'
  }

  /**
   * Recent answers with fewer rows than were asked for although neither the file nor the largest window is used up, if
   * and only if a cut at 2 or 8 MiB falls between two lines, no window up to there holds enough, and a smaller one is
   * cut inside a line. In every other case the answer is full, or is the page of the whole file, or is that of 32 MiB.
   */
  lemma StopsShort(file: string, decode: string -> Line, q: Query)
    ensures var w := StopsAt(file, decode, q);
            var few := (w: nat) => q.limit <= 0 || |PageAt(file, decode, q, w).deliveries| < q.limit;
            && (w < 32 * MIB && w < |file| && few(w) <==>
                  || (CutBetweenLines(file, 2 * MIB) && few(2 * MIB))
                  || (CutBetweenLines(file, 8 * MIB) && few(8 * MIB)
                      && few(2 * MIB) && |file| > 2 * MIB && !CutBetweenLines(file, 2 * MIB)))
            && (|file| <= w ==> PageAt(file, decode, q, w) == PageOf(RowsOf(Decoded(decode, Split(file))), q))
            && (!few(2 * MIB) ==> w == 2 * MIB) && (!few(8 * MIB) ==> w <= 8 * MIB)
  {
    var w := StopsAt(file, decode, q);
    if |file| <= w { WholeFile(file, decode, q, w); }
    CutOrPartial(file, 2 * MIB);
    CutOrPartial(file, 8 * MIB);
    hide PageAt, Partial, CutBetweenLines, Decoded, RowsOf, PageOf, Split;
  }

  /** A window that is smaller than the file begins inside a line or between two. */
  lemma CutOrPartial(file: string, window: nat)
    ensures Partial(file, window) || CutBetweenLines(file, window) <==> window < |file|
    ensures !(Partial(file, window) && CutBetweenLines(file, window))
  {
  }

  lemma WholeFile(file: string, decode: string -> Line, q: Query, window: nat)
    requires |file| <= window
    ensures PageAt(file, decode, q, window) == PageOf(RowsOf(Decoded(decode, Split(file))), q)
  {
    hide PageOf, RowsOf;
    assert file[0..] == file;
  }

  // ----- a delivery behind blank lines

  function Newlines(n: nat): (s: string)
    ensures |s| == n && forall i :: 0 <= i < n ==> s[i] == '\n'
  {
    seq(n, i => '\n')
  }

  lemma {:induction false} SplitNewlines(n: nat)
    ensures Split(Newlines(n)) == seq(n + 1, i => "")
  {
    if n > 0 {
      SplitNewlines(n - 1);
      assert Newlines(n)[1..] == Newlines(n - 1);
    }
  }

  lemma {:induction false} SplitRecord(record: string, rest: string)
    requires '\n' !in record
    ensures Split(record + "\n" + rest) == [record] + Split(rest)
  {
    var s := record + "\n" + rest;
    if record == "" {
      assert s[1..] == rest;
    } else {
      SplitRecord(record[1..], rest);
      assert s[1..] == record[1..] + "\n" + rest && s[0] == record[0];
      assert record == [record[0]] + record[1..];
    }
  }

  /** Lines that say nothing about deliveries add nothing. */
  lemma {:induction false} OthersSayNothing(lines: seq<Line>, k: nat, ms: seq<Mention>)
    requires k <= |lines| && SaysAll(lines, ms) && forall i :: k <= i < |lines| ==> lines[i] == Other
    ensures SaysAll(lines[..k], ms)
    decreases |lines|
  {
    if k == |lines| {
      assert lines[..k] == lines;
    } else {
      var n := |lines| - 1;
      var a, b :| SaysAll(lines[..n], a) && Says(lines[n], b) && ms == a + b;
      OthersSayNothing(lines[..n], k, a);
      assert lines[..n][..k] == lines[..k];
    }
  }

  /** A log of one delivery followed by at least 2 MiB of blank lines. */
  function Buried(record: string, blanks: nat): string {
    record + "\n" + Newlines(blanks)
  }

  /** Recent answers such a log with nothing, whatever the limit, although the whole of it holds a delivery. */
  lemma BuriedIsMissed(record: string, blanks: nat, decode: string -> Line, q: Query)
    requires '\n' !in record && blanks >= 2 * MIB && decode("") == Other && decode(record).Terminal?
    requires q.channel == "" && q.since == NEVER
    ensures var file := Buried(record, blanks);
            && PageAt(file, decode, q, StopsAt(file, decode, q)) == Page([], false)
            && |PageOf(RowsOf(Decoded(decode, Split(file))), q).deliveries| == 1
  {
    hide PageOf, RowsOf, StopsAt;
    MissedBehind(record, blanks, decode, q);
    FoundInWhole(record, blanks, decode, q);
  }

  lemma MissedBehind(record: string, blanks: nat, decode: string -> Line, q: Query)
    requires blanks >= 2 * MIB && decode("") == Other
    ensures var file := Buried(record, blanks);
            PageAt(file, decode, q, StopsAt(file, decode, q)) == Page([], false)
  {
    var file, w := Buried(record, blanks), 2 * MIB;
    var off := Offset(file, w);
    assert file[off - 1] == '\n' && file[off..] == Newlines(w);
    SplitNewlines(w);
    var lines := LinesAt(file, decode, w);
    OnlyOthers(lines, RowsOf(lines));
  }

  lemma OnlyOthers(lines: seq<Line>, rows: seq<Delivery>)
    requires Folded(lines, rows) && forall i :: 0 <= i < |lines| ==> lines[i] == Other
    ensures rows == []
  {
    var ms :| SaysAll(lines, ms) && rows == Rows(ms);
    OthersSayNothing(lines, 0, ms);
  }

  lemma FoundInWhole(record: string, blanks: nat, decode: string -> Line, q: Query)
    requires '\n' !in record && decode("") == Other && decode(record).Terminal? && q.channel == "" && q.since == NEVER
    ensures |PageOf(RowsOf(Decoded(decode, Split(Buried(record, blanks)))), q).deliveries| == 1
  {
    SplitRecord(record, Newlines(blanks));
    SplitNewlines(blanks);
    var lines := Decoded(decode, Split(Buried(record, blanks)));
    assert forall i :: 1 <= i < |lines| ==> lines[i] == Other;
    OneTerminal(lines, RowsOf(lines));
    OneMatch(RowsOf(lines), q);
  }

  lemma OneTerminal(lines: seq<Line>, rows: seq<Delivery>)
    requires Folded(lines, rows) && lines != [] && lines[0].Terminal?
    requires forall i :: 1 <= i < |lines| ==> lines[i] == Other
    ensures |rows| == 1
  {
    var ms :| SaysAll(lines, ms) && rows == Rows(ms);
    OthersSayNothing(lines, 1, ms);
    var a, b :| SaysAll(lines[..1][..0], a) && Says(lines[..1][0], b) && ms == a + b;
    assert a == [] && ms == b && |ms| == 1;
    KeysStep([], ms[0]);
    assert [] + [ms[0]] == ms && Keys([]) == [];
  }

  lemma OneMatch(rows: seq<Delivery>, q: Query)
    requires |rows| == 1 && q.channel == "" && q.since == NEVER
    ensures |PageOf(rows, q).deliveries| == 1
  {
    assert rows[..0] == [];
    assert Matching(rows, q) == [rows[0]] + Matching([], q) == [rows[0]];
    assert Sorted([]) == [] && Sorted([rows[0]]) == Put(rows[0], []);
    var out := Sorted(Matching(rows, q));
    assert out == [rows[0]] && |out| == 1;
    assert PageOf(rows, q) == Page(out, false);
  }
}
