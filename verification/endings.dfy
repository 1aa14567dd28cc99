/**
 Setting a key twice in a file, and the line ending that dominates it. A set writes its line in the dominant ending, so
 the second one overwrites the first only if the first has not tipped the balance.
 */
module Endings {
  import opened Wrappers
  import opened Text
  import opened Headers
  import opened Lexer
  import opened Tables
  import opened Edits
  import opened Assigns
  import opened SetKeys
  import opened Blocks

  /** A body as what is before the key's assignment, the assignment with its continuation lines, and what is after. */
  datatype Parts = Parts(before: string, entry: string, after: string)

  function PartsOf(body: string, key: string): Parts {
    var ls := Scan(body);
    var i := FindKey(ls, key);
    if i == |ls| then Parts("", "", body)
    else Parts(Concat(ls[..i]), Concat(ls[i..LogicalEnd(ls, i)]), Concat(ls[LogicalEnd(ls, i)..]))
  }

  function BodyOf(src: string, id: string): string
    requires Locate(Scan(src), id).Ok?
  {
    var b := Locate(Scan(src), id).value;
    Concat(Scan(src)[b.head + 1..b.end])
  }

  /** The text of the key's assignment in the table, or "". */
  function Entry(src: string, id: string, key: string): string
    requires Locate(Scan(src), id).Ok?
  {
    PartsOf(BodyOf(src, id), key).entry
  }

  /** The text ends a line or is not there. */
  predicate Ended(entry: string) {
    entry == "" || HasSuffix(entry, LF)
  }

  /**
   The dominant line ending survives one line of it in place of the entry. What the entry's own lines counted for is
   lost, so only an entry of several lines, in a file that mixes endings, can tip the balance.
   */
  predicate Balanced(src: string, entry: string) {
    if Tilt(src) > 0 then Tilt(src) - Tilt(entry) + 1 > 0 else Tilt(src) - Tilt(entry) - 1 <= 0
  }

  /** What is written in place of the entry. */
  function Written(entry: string, key: string, value: string, eol: string): string {
    Assignment(key, value) + if Ended(entry) then eol else ""
  }

  lemma BodyCuts(body: string, key: string)
    ensures var p := PartsOf(body, key);
            && body == p.before + p.entry + p.after && Whole(p.before) && (Whole(p.entry) || p.after == "")
            && (p.entry == "" <==> FindKey(Scan(body), key) == |Scan(body)|)
  {
    hide Classify, KeyAt;
    var ls := Scan(body);
    var i := FindKey(ls, key);
    if i == |ls| {
      assert "" + "" + body == body;
    } else {
      var e := LogicalEnd(ls, i);
      FileParts(body, i, e);
      EntryText(body, i, e);
      CutTexts(body, i);
      assert e == |ls| ==> ls[e..] == [];
    }
  }

  lemma InBody(body: string, key: string, value: string, eol: string)
    ensures var p := PartsOf(body, key);
            SetInBody(body, key, value, eol) == p.before + Written(p.entry, key, value, eol) + p.after
  {
    hide Classify, KeyAt, Scan, Lines;
    BodyCuts(body, key);
    if PartsOf(body, key).entry == "" {
      assert forall t: string :: "" + t + body == t + body;
    }
  }

  /** The file as the text before its entry, the entry, and the text after it. */
  function AroundEntry(src: string, id: string, key: string): Parts
    requires Locate(Scan(src), id).Ok?
  {
    var ls, b := Scan(src), Locate(Scan(src), id).value;
    var p := PartsOf(BodyOf(src, id), key);
    Parts(Concat(ls[..b.head + 1]) + p.before, p.entry, p.after + Concat(ls[b.end..]))
  }

  lemma HeadWhole(src: string, id: string)
    requires OpenForEdit(src, id)
    ensures Whole(Concat(Scan(src)[..Locate(Scan(src), id).value.head + 1]))
  {
    hide Classify, Keep, FindHeader, Locate, Lines;
    OpenHeader(src, id);
    var ls, h := Scan(src), Locate(Scan(src), id).value.head;
    assert ls[..h + 1] == ls[..h] + [ls[h]];
    ConcatAppend(ls[..h], [ls[h]]);
    OneRaw(ls[h]);
    CutTexts(src, h);
    WholeAppend(Concat(ls[..h]), ls[h].raw);
  }

  lemma OpenHeader(src: string, id: string)
    requires OpenForEdit(src, id)
    ensures Locate(Scan(src), id).Ok? && Whole(Scan(src)[Locate(Scan(src), id).value.head].raw)
  {
  }

  lemma BodyWhole(src: string, id: string)
    requires OpenForEdit(src, id)
    ensures Whole(BodyOf(src, id)) || Concat(Scan(src)[Locate(Scan(src), id).value.end..]) == ""
  {
    hide Classify, Keep, FindHeader, Locate, Lines;
    BodyRemovable(src, id);
    var ls, b := Scan(src), Locate(Scan(src), id).value;
    PartStandsAlone(src, b.head + 1, b.end);
    assert b.end == |ls| ==> ls[b.end..] == [];
  }

  lemma FileCuts(src: string, id: string, key: string)
    requires OpenForEdit(src, id)
    ensures var p := AroundEntry(src, id, key);
            src == p.before + p.entry + p.after && Whole(p.before) && (Whole(p.entry) || p.after == "")
  {
    OpenHeader(src, id);
    hide Classify, Keep, FindHeader, PartsOf, Locate, Lines, OpenForEdit, Whole;
    var ls, b := Scan(src), Locate(Scan(src), id).value;
    var head, tail := Concat(ls[..b.head + 1]), Concat(ls[b.end..]);
    var p := PartsOf(BodyOf(src, id), key);
    FileParts(src, b.head + 1, b.end);
    HeadWhole(src, id);
    BodyWhole(src, id);
    BodyCuts(BodyOf(src, id), key);
    WholeAppend(head, p.before);
    Regroup(head, p.before, p.entry, p.after, tail);
    EntryWhole(p, tail);
  }

  lemma InFile(src: string, id: string, key: string, value: string)
    requires OpenForEdit(src, id)
    ensures var p := AroundEntry(src, id, key);
            SetKey(src, id, key, value) == Ok(p.before + Written(p.entry, key, value, DominantEol(src)) + p.after)
  {
    OpenHeader(src, id);
    hide Classify, Keep, FindHeader, SetInBody, PartsOf, Written, Locate, Lines, OpenForEdit;
    var ls, b := Scan(src), Locate(Scan(src), id).value;
    var p := PartsOf(BodyOf(src, id), key);
    InBody(BodyOf(src, id), key, value, DominantEol(src));
    Regroup(Concat(ls[..b.head + 1]), p.before, Written(p.entry, key, value, DominantEol(src)), p.after,
            Concat(ls[b.end..]));
  }

  lemma EntryWhole(p: Parts, tail: string)
    requires Whole(p.entry) || p.after == ""
    requires Whole(p.before + p.entry + p.after) || tail == ""
    ensures Whole(p.entry) || p.after + tail == ""
  {
    var body := p.before + p.entry + p.after;
    if p.after == "" && p.entry != "" {
      assert body[|body| - 1] == p.entry[|p.entry| - 1];
    }
  }

  lemma Regroup(head: string, a: string, x: string, c: string, tail: string)
    ensures head + (a + x + c) + tail == (head + a) + x + (c + tail)
  {
  }

  /** What one set does to the balance of line endings. */
  lemma SetTilts(src: string, id: string, key: string, value: string, out: string)
    requires OpenForEdit(src, id) && OneLine(key, value) && SetKey(src, id, key, value) == Ok(out)
    ensures var entry := Entry(src, id, key);
            Tilt(out) == Tilt(src) - Tilt(entry) + if !Ended(entry) then 0 else if Tilt(src) > 0 then 1 else -1
  {
    hide Classify, Keep, FindHeader, KeyAt, OneLine, SetKey, Locate, PartsOf, BodyOf, Tilt;
    var p, eol := AroundEntry(src, id, key), DominantEol(src);
    var line := Written(p.entry, key, value, eol);
    FileCuts(src, id, key);
    InFile(src, id, key, value);
    TiltIsDominant(src);
    WrittenTilts(p.entry, key, value, eol);
    TiltThree(p.before, p.entry, p.after);
    TiltThree(p.before, line, p.after);
  }

  lemma WrittenTilts(entry: string, key: string, value: string, eol: string)
    requires OneLine(key, value) && (eol == LF || eol == CRLF)
    ensures var line := Written(entry, key, value, eol);
            && Tilt(line) == (if !Ended(entry) then 0 else if eol == CRLF then 1 else -1)
            && (Whole(entry) ==> Whole(line))
  {
    hide Advance, Tilt, Trim;
    var t := Assignment(key, value);
    assert forall i :: 0 <= i < |key| ==> IsBare(key[i]) && t[i] == key[i];
    assert t[|t| - 1] == if value == "" then ' ' else value[|value| - 1];
    assert value == "" || value[|value| - 1] !in SPACE by { assert Trim(value, SPACE) == value; }
    TiltOfLine(t, if Ended(entry) then eol else "");
  }

  /** What a set makes of a file in which the key was just set. */
  lemma SetInFileAgain(src: string, id: string, key: string, first: string, second: string, out: string)
    requires OpenForEdit(src, id) && OneLine(key, first) && OneLine(key, second)
    requires SetKey(src, id, key, first) == Ok(out)
    ensures var p := AroundEntry(src, id, key);
            SetKey(out, id, key, second) == Ok(p.before + Written(p.entry, key, second, DominantEol(out)) + p.after)
  {
    hide Classify, KeyAt, OneLine, Keep, FindHeader, SetInBody, SetLines, Written, PartsOf;
    var ls, b := Scan(src), Locate(Scan(src), id).value;
    var body, eol := BodyOf(src, id), DominantEol(src);
    var n := SetInBody(body, key, first, eol);
    BodyRemovable(src, id);
    PartStandsAlone(src, b.head + 1, b.end);
    KeptBody(src, id);
    SetInBodyScans(body, key, first, eol);
    SetLinesNoHeader(Scan(body), key, first, eol);
    SetLinesKept(Scan(body), key, first, eol);
    ExchangedParts(src, id, n, out);
    LinesSpell(n, NEUTRAL);
    SetTwice(body, key, first, second, eol, DominantEol(out));
    InBody(body, key, second, DominantEol(out));
    var p := PartsOf(body, key);
    Regroup(Concat(ls[..b.head + 1]), p.before, Written(p.entry, key, second, DominantEol(out)), p.after,
            Concat(ls[b.end..]));
  }

  /**
   In a file a second set overwrites the first exactly when the first has not tipped the balance of line endings, or the
   key's line ends the file without one.
   */
  lemma SetKeyTwice(src: string, id: string, key: string, first: string, second: string, out: string)
    requires OpenForEdit(src, id) && OneLine(key, first) && OneLine(key, second)
    requires SetKey(src, id, key, first) == Ok(out)
    ensures var entry := Entry(src, id, key);
            SetKey(out, id, key, second) == SetKey(src, id, key, second) <==> !Ended(entry) || Balanced(src, entry)
  {
    hide Classify, KeyAt, OneLine, Keep, FindHeader, SetKey, Locate, PartsOf, BodyOf, Tilt;
    var p := AroundEntry(src, id, key);
    InFile(src, id, key, second);
    SetInFileAgain(src, id, key, first, second, out);
    SetTilts(src, id, key, first, out);
    TiltIsDominant(src);
    TiltIsDominant(out);
    assert |CRLF| != |LF|;
  }

  /** A file with one line ending is never tipped, and an entry of one line, or none, tips no file. */
  lemma SeldomTips(src: string, id: string, key: string)
    requires OpenForEdit(src, id)
    requires '\r' !in src || OnlyCrlf(src) || CountLf(Entry(src, id, key)) <= 1
    ensures Balanced(src, Entry(src, id, key))
  {
    OpenHeader(src, id);
    hide Classify, Keep, FindHeader, Locate, PartsOf, BodyOf, CountCrlf, CountLf, OpenForEdit, OnlyCrlf;
    var p := AroundEntry(src, id, key);
    FileCuts(src, id, key);
    TiltThree(p.before, p.entry, p.after);
    if '\r' !in src {
      NoCrCounts(src);
      NoCrCounts(p.before);
      NoCrCounts(p.after);
    } else if OnlyCrlf(src) {
      OnlyCrlfTilts(p.before, p.entry, p.after);
    } else {
      CrlfIsLf(p.entry);
    }
  }

  lemma OnlyCrlfTilts(a: string, x: string, b: string)
    requires OnlyCrlf(a + x + b) && Whole(a) && (Whole(x) || b == "")
    ensures Tilt(a) >= 0 && Tilt(x) >= 0 && Tilt(b) >= 0
  {
    hide CountCrlf, CountLf, OnlyCrlf;
    assert a + x + b == a + (x + b);
    OnlyCrlfCut(a, x + b);
    OnlyCrlfCounts(a);
    if b == "" {
      assert x + b == x;
      NoCounts();
    } else {
      OnlyCrlfCut(x, b);
      OnlyCrlfCounts(b);
    }
    OnlyCrlfCounts(x);
  }

  lemma {:induction false} CrlfIsLf(s: string)
    ensures CountCrlf(s) <= CountLf(s)
  {
    if s == "" {
    } else if CRLF <= s {
      CrlfIsLf(s[2..]);
      CountsCrlf(s[2..]);
      assert s == CRLF + s[2..];
    } else {
      CrlfIsLf(s[1..]);
    }
  }

  // ----- a file that is tipped

  const HEADER: string := "[a]\n"
  const OPENS: string := "k=[\r\n"
  const CLOSES: string := "]\r\n"

  /** A bare newline after the header, and a value on two lines that end in CRLF. */
  const MIXED: string := HEADER + (OPENS + CLOSES)

  const MIXED_LINES := [Line(HEADER, true, Header("a", true)), Line(OPENS, true, Other), Line(CLOSES, false, Other)]

  lemma LineLenOf(t: string, eol: string)
    requires '\n' !in t && (eol == LF || (eol == CRLF && '\n' !in t))
    ensures LineLen(t + eol) == |t + eol| && Whole(t + eol)
  {
    var s := t + eol;
    assert forall i :: 0 <= i < |t| ==> s[i] == t[i];
    assert eol == CRLF ==> s[|t|] == '\r';
    assert s[|s| - 1] == '\n';
  }

  lemma HeaderScans()
    ensures LineLen(HEADER) == |HEADER| && Whole(HEADER)
    ensures Advance(HEADER, NEUTRAL) == NEUTRAL && Classify(HEADER) == Header("a", true)
  {
    hide Classify, Advance;
    HeaderOpens("a", LF);
    assert "[" + "a" + "]" + LF == HEADER;
    LineLenOf("[a]", LF);
  }

  lemma ArrayOpens()
    ensures LineLen(OPENS) == |OPENS| && Whole(OPENS)
    ensures Advance(OPENS, NEUTRAL) == State(MlNone, 1) && Classify(OPENS) == Other
  {
    hide Classify, Advance;
    InertPrefix("k=", "[\r\n");
    assert "k=" + "[\r\n" == OPENS;
    AdvanceTop("[\r\n", NEUTRAL);
    assert Drop("[\r\n", 1) == "\r\n";
    SpacesKeep("\r\n", State(MlNone, 1));
    AssignmentIsOther(OPENS, "k");
    LineLenOf("k=[", CRLF);
  }

  lemma EntryScans()
    ensures Scan(OPENS + CLOSES) == MIXED_LINES[1..]
  {
    hide Classify, Advance, Lines;
    ArrayOpens();
    LineLenOf("]", CRLF);
    assert "]" + CRLF == CLOSES;
    PrependLine(OPENS, CLOSES, NEUTRAL);
    SingleLine(CLOSES, State(MlNone, 1));
    assert [MIXED_LINES[1]] + [MIXED_LINES[2]] == MIXED_LINES[1..];
  }

  lemma MixedScans()
    ensures Scan(MIXED) == MIXED_LINES
  {
    hide Classify, Advance, Lines;
    HeaderScans();
    EntryScans();
    PrependLine(HEADER, OPENS + CLOSES, NEUTRAL);
    assert [MIXED_LINES[0]] + MIXED_LINES[1..] == MIXED_LINES;
  }

  lemma MixedLocated()
    ensures Locate(MIXED_LINES, "a") == Ok(Block(0, 0, 3))
  {
    hide Keep;
    var rest := MIXED_LINES[1..];
    assert rest[1..][1..] == [];
    assert NextHeader(rest) == 2 && rest[..2] == rest;
    assert !IsFiller(rest[1]);
    KeepsLast(rest);
  }

  lemma MixedEntry()
    ensures Scan(MIXED) == MIXED_LINES && OpenForEdit(MIXED, "a") && Entry(MIXED, "a", "k") == OPENS + CLOSES
  {
    MixedScans();
    MixedLocated();
    HeaderScans();
    hide Classify, Advance, Lines, Locate, KeyOf;
    var rest := MIXED_LINES[1..3];
    assert rest == MIXED_LINES[1..] == [MIXED_LINES[1], MIXED_LINES[2]];
    TwoRaws(MIXED_LINES[1], MIXED_LINES[2]);
    EntryScans();
    ArrayKey();
    FindKeyIs(rest, "k", 0);
    assert LogicalEnd(rest, 0) == 2 && rest[0..2] == rest;
  }

  lemma ArrayKey()
    ensures KeyOf(OPENS) == Some("k")
  {
    hide Trim;
    assert First(OPENS, '=') == 1;
    assert OPENS[..1] == "k";
    TrimUnique("", "k", "", BLANK);
    assert "" + "k" + "" == "k";
  }

  /** A first set in this file leaves one line of each ending, a tie, and a tie counts for bare newlines. */
  lemma MixedTips()
    ensures OpenForEdit(MIXED, "a") && Ended(Entry(MIXED, "a", "k")) && !Balanced(MIXED, Entry(MIXED, "a", "k"))
  {
    MixedEntry();
    hide Classify, Advance, Lines, Locate, Entry, OpenForEdit, Tilt;
    TiltOfLine("[a]", LF);
    TiltOfLine("k=[", CRLF);
    TiltOfLine("]", CRLF);
    assert "[a]" + LF == HEADER && "k=[" + CRLF == OPENS && "]" + CRLF == CLOSES;
    TiltAppend(OPENS, CLOSES);
    TiltAppend(HEADER, OPENS + CLOSES);
  }

  /** In this file no set overwrites the one before it: the second writes a bare newline where it would write CRLF. */
  lemma MixedSetTwice(first: string, second: string, out: string)
    requires OneLine("k", first) && OneLine("k", second) && SetKey(MIXED, "a", "k", first) == Ok(out)
    ensures SetKey(out, "a", "k", second) != SetKey(MIXED, "a", "k", second)
  {
    MixedTips();
    hide Classify, SetKey, Entry, OpenForEdit, OneLine, Locate;
    SetKeyTwice(MIXED, "a", "k", first, second, out);
  }
}
