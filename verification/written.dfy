/** What the dashboard writes: quoted strings, arrays of them, and new tables, as the editor reads them back. */
module Written {
  import opened Wrappers
  import opened Text
  import opened Quotes
  import opened Headers
  import opened Lexer
  import opened Tables
  import opened Edits
  import opened Assigns
  import opened SetKeys
  import opened Blocks
  import opened MaskStrings

  /** A written string is scanned as one string, unless a quote follows it and makes it open a multi-line one. */
  lemma QuoteScans(s: string, rest: string, st: State)
    requires st.ml == MlNone && (rest == "" || rest[0] != '"')
    ensures Advance(Quote(s) + rest, st) == Advance(rest, st)
  {
    hide Advance, EscapeAll, BasicLen;
    var e := EscapeAll(s);
    var text := "\"" + e + "\"" + rest;
    EscapeAllScans(s, rest);
    EscapedStart(s);
    NotTriple(e, rest);
    QuotedSlices(e, rest);
    AdvanceBasic(text, |e| + 2, st);
    assert Drop(text, |e| + 2) == rest;
    assert Quote(s) + rest == text;
  }

  /** A quote that follows an empty one opens a multi-line string. */
  lemma QuoteThenQuote()
    ensures Advance(Quote("") + "\"", NEUTRAL) == State(MlBasic, 0)
  {
    hide Advance;
    assert Quote("") + "\"" == QQQ && Drop(QQQ, 3) == "";
    AdvanceBasic(QQQ, 1 + BasicLen(QQQ[1..]), NEUTRAL);
    AdvanceAtEnd(State(MlBasic, 0));
  }

  lemma {:induction false} ElementsScan(xs: seq<string>)
    ensures Advance(Join(Quoted(xs), ", ") + "]", State(MlNone, 1)) == NEUTRAL
  {
    hide Advance, Quote;
    var st := State(MlNone, 1);
    if xs == [] {
      assert Join(Quoted(xs), ", ") + "]" == "]";
      ClosesArray();
    } else if |xs| == 1 {
      assert Quoted(xs)[0] == Quote(xs[0]);
      QuoteScans(xs[0], "]", st);
      ClosesArray();
    } else {
      ElementsScan(xs[1..]);
      assert Quoted(xs)[1..] == Quoted(xs[1..]);
      var more := Join(Quoted(xs[1..]), ", ") + "]";
      var rest := ", " + more;
      JoinedFirst(Quoted(xs));
      assert Join(Quoted(xs), ", ") + "]" == Quote(xs[0]) + rest;
      QuoteScans(xs[0], rest, st);
      AdvanceTop(rest, st);
      assert Drop(rest, 1) == " " + more;
      AdvanceTop(" " + more, st);
      assert Drop(" " + more, 1) == more;
    }
  }

  lemma ClosesArray()
    ensures Advance("]", State(MlNone, 1)) == NEUTRAL
  {
    hide Advance;
    AdvanceTop("]", State(MlNone, 1));
    assert Drop("]", 1) == "";
    AdvanceAtEnd(NEUTRAL);
  }

  /** No line break of any kind. */
  predicate OnALine(s: string) {
    '\n' !in s && '\r' !in s
  }

  lemma {:induction false} EscapedOnALine(s: string)
    ensures OnALine(EscapeAll(s))
  {
    hide Escape;
    if s != "" {
      EscapedOnALine(s[1..]);
      EscapeOnALine(s[0]);
      OnALineAppend(Escape(s[0]), EscapeAll(s[1..]));
    }
  }

  lemma OnALineAppend(a: string, b: string)
    requires OnALine(a) && OnALine(b)
    ensures OnALine(a + b)
  {
  }

  lemma EscapeOnALine(c: char)
    ensures OnALine(Escape(c))
  {
    assert forall i :: 0 <= i < 16 ==> HEX[i] != '\n' && HEX[i] != '\r';
    var e := Escape(c);
    if |e| == 6 {
      var hi, lo := c as int / 16, c as int % 16;
      assert e == ['\\', 'u', '0', '0', HEX[hi], HEX[lo]] && HEX[hi] != '\n' && HEX[lo] != '\n';
    }
  }

  lemma QuoteOnALine(s: string)
    ensures OnALine(Quote(s))
  {
    EscapedOnALine(s);
  }

  lemma {:induction false} JoinOnALine(parts: seq<string>)
    requires forall i :: 0 <= i < |parts| ==> OnALine(parts[i])
    ensures OnALine(Join(parts, ", "))
  {
    if |parts| > 1 { JoinOnALine(parts[1..]); }
  }

  lemma Framed(v: string)
    requires v != "" && v[0] !in SPACE && v[|v| - 1] !in SPACE
    ensures Trim(v, SPACE) == v
  {
    TrimUnique("", v, "", SPACE);
    assert "" + v + "" == v;
  }

  /** What tomlString writes can be set as the value of any key. */
  lemma QuoteIsValue(key: string, s: string)
    requires IsBareId(key)
    ensures OneLine(key, Quote(s)) && OnALine(Quote(s))
  {
    QuoteOnALine(s);
    hide Trim, Advance, EscapeAll;
    Framed(Quote(s));
    QuoteScans(s, "", NEUTRAL);
    assert Quote(s) + "" == Quote(s);
    AdvanceAtEnd(NEUTRAL);
  }

  /** So can what tomlStringArray writes. */
  lemma ArrayIsValue(key: string, xs: seq<string>)
    requires IsBareId(key)
    ensures OneLine(key, TomlStringArray(xs)) && OnALine(TomlStringArray(xs))
  {
    hide Trim, Advance, Quote, Join;
    var v := TomlStringArray(xs);
    forall i | 0 <= i < |xs| ensures OnALine(Quoted(xs)[i]) { QuoteOnALine(xs[i]); }
    JoinOnALine(Quoted(xs));
    Framed(v);
    AdvanceTop(v, NEUTRAL);
    assert Drop(v, 1) == Join(Quoted(xs), ", ") + "]";
    ElementsScan(xs);
  }

  // ----- a new table

  /** The block the dashboard appends for a new channel or caller: a header and two keys. */
  function NewTable(id: string, a: (string, string), b: (string, string), eol: string): string {
    "[" + id + "]" + eol + (Assignment(a.0, a.1) + eol + (Assignment(b.0, b.1) + eol))
  }

  /** A key and value that can stand on one line of a block. */
  predicate Writable(p: (string, string)) {
    OneLine(p.0, p.1) && OnALine(p.1)
  }

  lemma WordIsValue(key: string, v: string)
    requires IsBareId(key) && IsBareId(v)
    ensures Writable((key, v))
  {
    hide Trim, Advance;
    assert forall i :: 0 <= i < |v| ==> IsBare(v[i]);
    Framed(v);
    InertPrefix(v, "");
    AdvanceAtEnd(NEUTRAL);
    assert v + "" == v;
  }

  /** The keys of a new channel, disabled until it is filled in, and of a new caller, which reaches nothing yet. */
  lemma DashboardWrites(typ: string, key: string)
    ensures Writable(("type", Quote(typ))) && Writable(("enabled", "false"))
    ensures Writable(("key", Quote(key))) && Writable(("channels", TomlStringArray([])))
  {
    hide OneLine, OnALine, Quote, TomlStringArray;
    QuoteIsValue("type", typ);
    WordIsValue("enabled", "false");
    QuoteIsValue("key", key);
    ArrayIsValue("channels", []);
  }

  function NewLines(id: string, a: (string, string), b: (string, string), eol: string): seq<Line> {
    [Line("[" + id + "]" + eol, true, Header(id, true)), NewLine(a.0, a.1, eol), NewLine(b.0, b.1, eol)]
  }

  lemma NewTableScans(id: string, a: (string, string), b: (string, string), eol: string)
    requires IsBareId(id) && Writable(a) && Writable(b) && (eol == LF || eol == CRLF)
    ensures Scan(NewTable(id, a, b, eol)) == NewLines(id, a, b, eol) && Closed(NewTable(id, a, b, eol))
  {
    hide Classify, Advance, OneLine, KeyAt, ValueOf, Lines, After, Assignment;
    var h, x, y := "[" + id + "]" + eol, Assignment(a.0, a.1) + eol, Assignment(b.0, b.1) + eol;
    HeaderOpens(id, eol);
    HeaderLine(id, eol);
    NewLineFacts(a.0, a.1, eol);
    NewLineFacts(b.0, b.1, eol);
    LinesCompose(x, y, NEUTRAL);
    PrependLine(h, x + y, NEUTRAL);
  }

  lemma HeaderLine(id: string, eol: string)
    requires IsBareId(id) && (eol == LF || eol == CRLF)
    ensures var raw := "[" + id + "]" + eol; raw != "" && LineLen(raw) == |raw|
  {
    var t := "[" + id + "]";
    var raw := t + eol;
    assert forall i :: 0 <= i < |id| ==> IsBare(id[i]) && t[i + 1] == id[i];
    assert forall i :: 0 <= i < |t| ==> raw[i] == t[i] && t[i] != '\n';
    assert eol == CRLF ==> raw[|t|] == '\r';
    assert raw[|raw| - 1] == '\n';
  }

  lemma NewTableIsOne(id: string, a: (string, string), b: (string, string), eol: string)
    requires Writable(a) && Writable(b) && (eol == LF || eol == CRLF)
    ensures OneTable(NewLines(id, a, b, eol), 0, id)
  {
    hide Classify, OneLine, KeyAt, ValueOf, Keep;
    var ls := NewLines(id, a, b, eol);
    NewLineFacts(b.0, b.1, eol);
    assert ls[1..] == [ls[1], ls[2]];
    KeepsLast(ls[1..]);
  }

  lemma {:induction false} LfToCrlfLine(t: string, rest: string)
    requires '\n' !in t
    ensures LfToCrlf(t + LF + rest) == t + CRLF + LfToCrlf(rest)
  {
    var s := t + LF + rest;
    if t == "" {
      assert s[1..] == rest;
    } else {
      LfToCrlfLine(t[1..], rest);
      assert s[0] == t[0] && s[1..] == t[1..] + LF + rest;
      assert t == [t[0]] + t[1..];
    }
  }

  lemma ThreeLines(h: string, x: string, y: string)
    requires OnALine(h) && OnALine(x) && OnALine(y)
    ensures '\r' !in h + LF + (x + LF + (y + LF))
    ensures LfToCrlf(h + LF + (x + LF + (y + LF))) == h + CRLF + (x + CRLF + (y + CRLF))
  {
    hide LfToCrlf;
    LfToCrlfLine(h, x + LF + (y + LF));
    LfToCrlfLine(x, y + LF);
    LfToCrlfLine(y, "");
    assert y + LF + "" == y + LF && LfToCrlf("") == "" by { NoLines(); }
    assert y + CRLF + "" == y + CRLF;
  }

  lemma NoLines()
    ensures LfToCrlf("") == ""
  {
  }

  lemma AssignmentOnALine(key: string, value: string)
    requires IsBareId(key) && OnALine(value)
    ensures OnALine(Assignment(key, value))
  {
    assert forall i :: 0 <= i < |key| ==> IsBare(key[i]);
  }

  lemma HeaderOnALine(id: string)
    requires IsBareId(id)
    ensures OnALine("[" + id + "]")
  {
    assert forall i :: 0 <= i < |id| ==> IsBare(id[i]);
  }

  /** The block is stored as it is, in the line ending of the file. */
  lemma NewTableStored(src: string, id: string, a: (string, string), b: (string, string))
    requires IsBareId(id) && Writable(a) && Writable(b)
    ensures StoredBlock(src, NewTable(id, a, b, LF)) == NewTable(id, a, b, DominantEol(src))
  {
    hide Advance, Trim, LfToCrlf, CrlfToLf, CrToLf, DominantEol;
    var h, x, y := "[" + id + "]", Assignment(a.0, a.1), Assignment(b.0, b.1);
    HeaderOnALine(id);
    AssignmentOnALine(a.0, a.1);
    AssignmentOnALine(b.0, b.1);
    ThreeLines(h, x, y);
    CrlfToLfKeeps(NewTable(id, a, b, LF));
    EndsIn(h + DominantEol(src) + (x + DominantEol(src)), y, DominantEol(src));
    var eol := DominantEol(src);
    assert h + eol + (x + eol) + (y + eol) == h + eol + (x + eol + (y + eol));
  }

  lemma EndsIn(s: string, y: string, eol: string)
    ensures HasSuffix(s + (y + eol), eol)
  {
    var t := s + (y + eol);
    assert t[|t| - |eol|..] == eol;
  }

  /**
   Creating a channel or a caller: the file gets one table more, under its id and last in the list, with exactly the two
   settings given; the table can be edited, and removing it gives back the text up to white space at its end.
   */
  lemma TableCreated(src: string, id: string, a: (string, string), b: (string, string))
    requires HasInk(src) && Closed(src) && FindHeader(Scan(src), id) == |Scan(src)|
    requires IsBareId(id) && Writable(a) && Writable(b)
    ensures var out := Appended(src, NewTable(id, a, b, LF));
            && Ids(Scan(out)) == Ids(Scan(src)) + [id] && OpenForEdit(out, id)
            && Body(out, id).Ok? && Settings(Scan(Body(out, id).value)) == [a, b]
            && Removed(out, id) == Ok(TrimRight(src, SPACE) + DominantEol(out))
  {
    hide Classify, Lines, Appended, StoredBlock, Keep, FindHeader, IsVoid, DominantEol, OneLine, Advance, NewTable;
    var block, eol := NewTable(id, a, b, LF), DominantEol(src);
    NewTableStored(src, id, a, b);
    NewTableScans(id, a, b, eol);
    NewTableIsOne(id, a, b, eol);
    AppendThenRemove(src, block, 0, id);
    AppendIds(src, block);
    NewTableIds(id, a, b, eol);
    NewTableBody(src, id, a, b);
  }

  lemma NewTableIds(id: string, a: (string, string), b: (string, string), eol: string)
    ensures Ids(NewLines(id, a, b, eol)) == [id]
  {
    var ls := NewLines(id, a, b, eol);
    IdsAppend([ls[0]], [ls[1], ls[2]]);
    IdsAppend([ls[1]], [ls[2]]);
    assert [ls[0]] + [ls[1], ls[2]] == ls && [ls[1]] + [ls[2]] == [ls[1], ls[2]];
    assert forall i :: 0 <= i < 3 ==> [ls[i]][1..] == [];
  }

  lemma NewTableBody(src: string, id: string, a: (string, string), b: (string, string))
    requires HasInk(src) && Closed(src) && FindHeader(Scan(src), id) == |Scan(src)|
    requires IsBareId(id) && Writable(a) && Writable(b)
    ensures var out := Appended(src, NewTable(id, a, b, LF));
            && OpenForEdit(out, id) && Body(out, id).Ok? && Settings(Scan(Body(out, id).value)) == [a, b]
  {
    hide Classify, Lines, Appended, StoredBlock, Keep, FindHeader, IsVoid, DominantEol, OneLine, Advance, NewTable;
    var block, eol := NewTable(id, a, b, LF), DominantEol(src);
    NewTableStored(src, id, a, b);
    NewTableScans(id, a, b, eol);
    NewTableIsOne(id, a, b, eol);
    var old', gap := AppendScans(src, block);
    var out, n := Appended(src, block), NewLines(id, a, b, eol);
    FreshTrimmed(Scan(src), old', id);
    LocateAppended(old', gap, n, 0, id);
    BodyIs(out, id);
    HeaderOpens(id, eol);
    var ls := Scan(out);
    assert ls[|old'| + 1] == n[0] && ls[|old'| + 2..|ls|] == n[1..] == [n[1], n[2]];
    TwoSettings(a, b, eol);
  }

  lemma TwoSettings(a: (string, string), b: (string, string), eol: string)
    requires Writable(a) && Writable(b) && (eol == LF || eol == CRLF)
    ensures var ls := [NewLine(a.0, a.1, eol), NewLine(b.0, b.1, eol)];
            Settings(Scan(Concat(ls))) == [a, b]
  {
    hide Classify, OneLine, Lines, KeyAt, ValueOf, Settings;
    var l, m := NewLine(a.0, a.1, eol), NewLine(b.0, b.1, eol);
    NewLineFacts(a.0, a.1, eol);
    NewLineFacts(b.0, b.1, eol);
    TwoRaws(l, m);
    LinesCompose(l.raw, m.raw, NEUTRAL);
    SettingsAppend([l], [m]);
    SettingsOfLine(l, a.0);
    SettingsOfLine(m, b.0);
  }
}
