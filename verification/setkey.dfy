/** Setting one key inside a table. */
module SetKeys {
  import opened Wrappers
  import opened Text
  import opened Headers
  import opened Lexer
  import opened Tables
  import opened Edits
  import opened Assigns

  /** The first line that assigns key, or |ls|. */
  function FindKey(ls: seq<Line>, key: string): (i: nat)
    ensures i <= |ls|
  {
    if ls == [] || KeyAt(ls[0]) == Some(key) then 0 else 1 + FindKey(ls[1..], key)
  }

  lemma {:induction false} FindKeyFirst(ls: seq<Line>, key: string)
    ensures var i := FindKey(ls, key);
            && (forall k :: 0 <= k < i ==> KeyAt(ls[k]) != Some(key))
            && (i < |ls| ==> KeyAt(ls[i]) == Some(key))
  {
    hide KeyAt;
    if ls != [] && KeyAt(ls[0]) != Some(key) {
      FindKeyFirst(ls[1..], key);
      assert forall k :: 1 <= k < |ls| ==> ls[k] == ls[1..][k - 1];
    }
  }

  lemma {:induction false} FindKeyIs(ls: seq<Line>, key: string, i: nat)
    requires i <= |ls| && forall k :: 0 <= k < i ==> KeyAt(ls[k]) != Some(key)
    requires i < |ls| ==> KeyAt(ls[i]) == Some(key)
    ensures FindKey(ls, key) == i
  {
    hide KeyAt;
    if i > 0 {
      assert KeyAt(ls[0]) != Some(key);
      FindKeyIs(ls[1..], key, i - 1);
    }
  }

  function Assignment(key: string, value: string): string {
    key + " = " + value
  }

  /** The body with one key set: its old assignment overwritten in place, or a new one at the top. */
  function SetInBody(body: string, key: string, value: string, eol: string): string {
    var ls := Scan(body);
    var i := FindKey(ls, key);
    if i == |ls| then Assignment(key, value) + eol + body
    else
      var e := LogicalEnd(ls, i);
      Concat(ls[..i]) + Overwriting(Concat(ls[i..e]), key, value, eol) + Concat(ls[e..])
  }

  /** The text that takes the place of the old assignment, keeping whether it ended its line. */
  function Overwriting(old': string, key: string, value: string, eol: string): string {
    Assignment(key, value) + (if HasSuffix(old', LF) then eol else "")
  }

  /** What SetKeyInBlock returns. */
  function SetKey(src: string, id: string, key: string, value: string): Result<string> {
    match Locate(Scan(src), id)
    case Err(e) => Err(e)
    case Ok(b) =>
      var ls := Scan(src);
      Ok(Concat(ls[..b.head + 1]) + SetInBody(Concat(ls[b.head + 1..b.end]), key, value, DominantEol(src))
         + Concat(ls[b.end..]))
  }

  method SetKeyInBlock(src: string, id: string, key: string, value: string) returns (r: Result<string>)
    ensures r == SetKey(src, id, key, value)
  {
    hide Classify, SetInBody, FindKey, FindHeader, Keep;
    var span := BodySpan(src, id);
    match span
    case Err(e) => r := Err(e);
    case Ok((start, end)) =>
      ghost var b := Locate(Scan(src), id).value;
      Slice(src, b.head + 1, b.end);
      var body := src[start..end];
      var at, upTo, repl := EditOf(body, key, value, DominantEol(src));
      SpliceInside(src, start, end, at, upTo, repl);
      r := Ok(Splice(src, start + at, start + upTo, repl));
  }

  lemma SpliceInside(src: string, start: nat, end: nat, at: nat, upTo: nat, repl: string)
    requires start <= end <= |src| && at <= upTo <= end - start
    ensures Splice(src, start + at, start + upTo, repl) ==
              src[..start] + Splice(src[start..end], at, upTo, repl) + src[end..]
  {
    assert src[..start + at] == src[..start] + src[start..end][..at];
    assert src[start + upTo..] == src[start..end][upTo..] + src[end..];
  }

  /** The search of SetKeyInBlock: which part of the body to replace, and by what. */
  method EditOf(body: string, key: string, value: string, eol: string) returns (at: nat, upTo: nat, repl: string)
    ensures at <= upTo <= |body| && Splice(body, at, upTo, repl) == SetInBody(body, key, value, eol)
  {
    hide Classify, KeyAt;
    var ls := ScanLines(body);
    var i := 0;
    while i < |ls| && KeyAt(ls[i]) != Some(key)
      invariant i <= |ls| && forall k :: 0 <= k < i ==> KeyAt(ls[k]) != Some(key)
    {
      i := i + 1;
    }
    FindKeyIs(ls, key, i);
    if i == |ls| {
      at, upTo, repl := 0, 0, Assignment(key, value) + eol;
      assert body[..0] == "" && body[0..] == body;
      return;
    }
    var e := LogicalEndOf(ls, i);
    Slice(body, i, e);
    at, upTo := Offset(ls, i), Offset(ls, e);
    repl := Assignment(key, value);
    if HasSuffix(body[at..upTo], LF) {
      repl := repl + eol;
    } else {
      assert repl + "" == repl;
    }
  }

  // ----- the assignment line

  /** A bare key and a value on one line that closes every string and bracket it opens. */
  predicate OneLine(key: string, value: string) {
    && IsBareId(key)
    && '\n' !in value && Trim(value, SPACE) == value && Advance(value, NEUTRAL) == NEUTRAL
  }

  predicate IsEol(eol: string) {
    eol == LF || eol == CRLF || eol == ""
  }

  lemma AssignmentScans(key: string, value: string, eol: string)
    requires OneLine(key, value) && IsEol(eol)
    ensures var raw := Assignment(key, value) + eol;
            && raw != "" && LineLen(raw) == |raw| && (eol != "" ==> Whole(raw))
            && Advance(raw, NEUTRAL) == NEUTRAL && Classify(raw) == Other
  {
    var raw := Assignment(key, value) + eol;
    var p := key + " = ";
    assert forall i :: 0 <= i < |p| ==> Inert(p[i]) by {
      assert forall i :: 0 <= i < |key| ==> IsBare(key[i]) && p[i] == key[i];
    }
    assert raw == p + (value + eol);
    InertPrefix(p, value + eol);
    TailKeeps(value, eol, "", NEUTRAL);
    assert value + "" == value;
    AssignmentIsOther(raw, key);
    AssignmentLength(key, value, eol);
  }

  lemma AssignmentLength(key: string, value: string, eol: string)
    requires OneLine(key, value) && IsEol(eol)
    ensures var raw := Assignment(key, value) + eol; LineLen(raw) == |raw| && (eol != "" ==> Whole(raw))
  {
    var raw := Assignment(key, value) + eol;
    var body := Assignment(key, value);
    assert forall i :: 0 <= i < |key| ==> IsBare(key[i]);
    assert forall i :: 0 <= i < |body| ==> body[i] != '\n';
    assert forall i :: 0 <= i < |body| ==> raw[i] == body[i];
    var f := First(raw, '\n');
    assert f >= |body|;
    if eol == CRLF {
      assert raw[|body|] == '\r' && raw[|body| + 1] == '\n';
    } else if eol == LF {
      assert raw[|body|] == '\n';
    }
  }

  lemma AssignmentIsOther(raw: string, key: string)
    requires IsBareId(key) && key <= raw
    ensures Classify(raw) == Other
  {
    hide Trim, ParsedHeader;
    assert IsBare(key[0]) && raw[0] == key[0];
    TrimStart(raw, SPACE);
  }

  lemma AssignmentKey(key: string, value: string, eol: string)
    requires OneLine(key, value) && IsEol(eol)
    ensures KeyOf(Assignment(key, value) + eol) == Some(key)
    ensures ValueOf(Assignment(key, value) + eol) == value
  {
    hide Trim, First;
    var raw := Assignment(key, value) + eol;
    AssignmentEquals(key, value, eol);
    KeyTrimmed(key);
    ValueTrimmed(value, eol);
  }

  lemma AssignmentEquals(key: string, value: string, eol: string)
    requires IsBareId(key)
    ensures var raw := Assignment(key, value) + eol;
            First(raw, '=') == |key| + 1 && raw[..|key| + 1] == key + " " && Drop(raw, |key| + 2) == " " + value + eol
  {
    hide First;
    var raw := Assignment(key, value) + eol;
    assert forall i :: 0 <= i < |key| ==> IsBare(key[i]) && raw[i] == key[i];
    assert raw[|key|] == ' ' && raw[|key| + 1] == '=';
  }

  lemma KeyTrimmed(key: string)
    requires IsBareId(key)
    ensures Trim(key + " ", BLANK) == key && KeyChars(key)
  {
    hide Trim;
    assert forall i :: 0 <= i < |key| ==> IsBare(key[i]);
    TrimUnique("", key, " ", BLANK);
    assert "" + key + " " == key + " ";
  }

  lemma ValueTrimmed(value: string, eol: string)
    requires Trim(value, SPACE) == value && IsEol(eol)
    ensures Trim(" " + value + eol, SPACE) == value
  {
    hide Trim;
    assert value == "" || (value[0] !in SPACE && value[|value| - 1] !in SPACE) by {
      assert Trim(value, SPACE) == value;
    }
    TrimUnique(" ", value, eol, SPACE);
  }

  // ----- the laws

  /** The list with the first pair of that key overwritten, or a new pair in front. */
  function SetPair(ps: seq<(string, string)>, key: string, value: string): seq<(string, string)> {
    var i := FindPair(ps, key);
    if i == |ps| then [(key, value)] + ps else ps[i := (key, value)]
  }

  function FindPair(ps: seq<(string, string)>, key: string): (i: nat)
    ensures i <= |ps| && forall k :: 0 <= k < i ==> ps[k].0 != key
    ensures i < |ps| ==> ps[i].0 == key
  {
    if ps == [] || ps[0].0 == key then 0 else 1 + FindPair(ps[1..], key)
  }

  /** The first pair of the key reads the new value, or there is a new pair in front; all others are as they were. */
  lemma SetPairIs(ps: seq<(string, string)>, key: string, value: string)
    ensures (forall k :: 0 <= k < |ps| ==> ps[k].0 != key) ==> SetPair(ps, key, value) == [(key, value)] + ps
    ensures forall i :: 0 <= i < |ps| && ps[i].0 == key && (forall k :: 0 <= k < i ==> ps[k].0 != key) ==>
              SetPair(ps, key, value) == ps[..i] + [(key, value)] + ps[i + 1..]
  {
  }

  lemma FindPairIs(ps: seq<(string, string)>, key: string, i: nat)
    requires i <= |ps| && forall k :: 0 <= k < i ==> ps[k].0 != key
    requires i < |ps| ==> ps[i].0 == key
    ensures FindPair(ps, key) == i
  {
  }

  lemma {:induction false} NoKeyNoPair(ls: seq<Line>, key: string)
    requires forall k :: 0 <= k < |ls| ==> KeyAt(ls[k]) != Some(key)
    ensures forall k :: 0 <= k < |Settings(ls)| ==> Settings(ls)[k].0 != key
    decreases |ls|
  {
    hide KeyAt, ValueOf;
    if ls != [] {
      assert KeyAt(ls[0]) != Some(key);
      var n := LogicalEnd(ls, 0);
      NoKeyNoPair(ls[n..], key);
      assert Settings(ls) == FirstSetting(ls) + Settings(ls[n..]);
    }
  }

  /** A line that assigns key. */
  lemma SettingsOfLine(l: Line, key: string)
    requires KeyAt(l) == Some(key)
    ensures Settings([l]) == [(key, ValueOf(l.raw))]
  {
    hide KeyAt, ValueOf;
    assert LogicalEnd([l], 0) == 1 && [l][..1] == [l] && [l][1..] == [];
    assert Concat([l]) == l.raw + Concat([]);
    assert l.raw + "" == l.raw;
  }

  /** What overwriting one entry does to the settings. */
  lemma OverwriteSettings(a: seq<Line>, e: seq<Line>, c: seq<Line>, l: Line, key: string)
    requires forall k :: 0 <= k < |a| ==> KeyAt(a[k]) != Some(key)
    requires e != [] && KeyAt(e[0]) == Some(key) && LogicalEnd(e, 0) == |e|
    requires KeyAt(l) == Some(key)
    requires c == [] || c[0].structural
    ensures Settings(a + [l] + c) == SetPair(Settings(a + e + c), key, ValueOf(l.raw))
  {
    hide KeyAt, ValueOf, FindPair;
    KeyedIsStructural(e[0], key);
    KeyedIsStructural(l, key);
    SettingsThree(a, e, c);
    SettingsThree(a, [l], c);
    SettingsOfLine(l, key);
    SettingsOfEntry(e, key);
    NoKeyNoPair(a, key);
    Overwritten(Settings(a), Settings(e), Settings(c), key, ValueOf(l.raw));
  }

  lemma KeyedIsStructural(l: Line, key: string)
    requires KeyAt(l) == Some(key)
    ensures l.structural
  {
    hide KeyOf;
  }

  lemma SettingsThree(a: seq<Line>, e: seq<Line>, c: seq<Line>)
    requires e != [] && e[0].structural && (c == [] || c[0].structural)
    ensures Settings(a + e + c) == Settings(a) + Settings(e) + Settings(c)
  {
    hide Settings;
    SettingsAppend(a + e, c);
    SettingsAppend(a, e);
  }

  lemma SettingsOfEntry(e: seq<Line>, key: string)
    requires e != [] && KeyAt(e[0]) == Some(key) && LogicalEnd(e, 0) == |e|
    ensures |Settings(e)| == 1 && Settings(e)[0].0 == key
  {
    hide KeyAt, ValueOf;
    assert e[|e|..] == [];
  }

  lemma Overwritten(a: seq<(string, string)>, e: seq<(string, string)>, c: seq<(string, string)>, key: string,
                   value: string)
    requires forall k :: 0 <= k < |a| ==> a[k].0 != key
    requires |e| == 1 && e[0].0 == key
    ensures SetPair(a + e + c, key, value) == a + [(key, value)] + c
  {
    var ps := a + e + c;
    assert forall k :: 0 <= k < |a| ==> ps[k] == a[k];
    assert ps[|a|] == e[0];
    FindPairIs(ps, key, |a|);
  }

  /** The line the edit writes. */
  function NewLine(key: string, value: string, eol: string): Line {
    Line(Assignment(key, value) + eol, true, Other)
  }

  lemma NewLineFacts(key: string, value: string, eol: string)
    requires OneLine(key, value) && IsEol(eol)
    ensures var l := NewLine(key, value, eol);
            && Scan(l.raw) == [l] && Closed(l.raw) && (eol != "" ==> Whole(l.raw))
            && KeyAt(l) == Some(key) && ValueOf(l.raw) == value && !IsFiller(l)
  {
    hide Classify, KeyOf, ValueOf;
    AssignmentScans(key, value, eol);
    AssignmentKey(key, value, eol);
    SingleLine(Assignment(key, value) + eol, NEUTRAL);
  }

  /** The lines of the edited body. */
  function SetLines(ls: seq<Line>, key: string, value: string, eol: string): seq<Line> {
    var i := FindKey(ls, key);
    if i == |ls| then [NewLine(key, value, eol)] + ls
    else
      var e := LogicalEnd(ls, i);
      ls[..i] + [NewLine(key, value, if HasSuffix(Concat(ls[i..e]), LF) then eol else "")] + ls[e..]
  }

  lemma SuffixIsWhole(s: string)
    ensures HasSuffix(s, LF) <==> s != "" && Whole(s)
  {
  }

  lemma EntryText(body: string, i: nat, e: nat)
    requires i < e <= |Scan(body)|
    ensures Concat(Scan(body)[i..e]) != ""
    ensures e < |Scan(body)| ==> Whole(Concat(Scan(body)[i..e]))
  {
    hide Classify;
    LineOf(body, i);
    ConcatNonEmpty(Scan(body)[i..e]);
    if e < |Scan(body)| {
      CutTexts(body, e);
      ThreeLists(Scan(body), i, e);
      WholeTail(Concat(Scan(body)[..i]), Concat(Scan(body)[i..e]));
    }
  }

  lemma ConcatNonEmpty(ls: seq<Line>)
    requires ls != [] && ls[0].raw != ""
    ensures Concat(ls) != ""
  {
  }

  lemma WholeTail(a: string, b: string)
    requires Whole(a + b)
    ensures Whole(b)
  {
    if b != "" {
      assert (a + b)[|a + b| - 1] == b[|b| - 1];
    }
  }

  lemma SetInBodyScans(body: string, key: string, value: string, eol: string)
    requires OneLine(key, value) && IsEol(eol) && eol != ""
    ensures Scan(SetInBody(body, key, value, eol)) == SetLines(Scan(body), key, value, eol)
    ensures Closed(body) && Whole(body) ==>
              Closed(SetInBody(body, key, value, eol)) && Whole(SetInBody(body, key, value, eol))
  {
    hide Classify, KeyOf, ValueOf, OneLine;
    var ls := Scan(body);
    var i := FindKey(ls, key);
    if i == |ls| {
      NewLineFacts(key, value, eol);
      Prepended(NewLine(key, value, eol), body);
    } else {
      FindKeyFirst(ls, key);
      OverwriteScans(body, key, value, eol, i, LogicalEnd(ls, i));
    }
  }

  lemma Prepended(l: Line, body: string)
    requires Scan(l.raw) == [l] && Closed(l.raw) && Whole(l.raw)
    ensures Scan(l.raw + body) == [l] + Scan(body)
    ensures Closed(body) && Whole(body) ==> Closed(l.raw + body) && Whole(l.raw + body)
  {
    hide Classify;
    LinesCompose(l.raw, body, NEUTRAL);
    WholeAppend(l.raw, body);
  }

  lemma OverwriteScans(body: string, key: string, value: string, eol: string, i: nat, e: nat)
    requires OneLine(key, value) && IsEol(eol) && eol != ""
    requires i < |Scan(body)| && Scan(body)[i].structural && e == LogicalEnd(Scan(body), i)
    ensures var ls := Scan(body);
            var l := NewLine(key, value, if HasSuffix(Concat(ls[i..e]), LF) then eol else "");
            var n := Concat(ls[..i]) + l.raw + Concat(ls[e..]);
            && Scan(n) == ls[..i] + [l] + ls[e..]
            && (Closed(body) && Whole(body) ==> Closed(n) && Whole(n))
  {
    hide Classify, KeyOf, ValueOf, OneLine, LogicalEnd;
    var ls := Scan(body);
    var old' := Concat(ls[i..e]);
    var l := NewLine(key, value, if HasSuffix(old', LF) then eol else "");
    SuffixIsWhole(old');
    EntryText(body, i, e);
    NewLineFacts(key, value, if HasSuffix(old', LF) then eol else "");
    StructuralIsNeutral(body, i);
    CutTexts(body, i);
    EndFacts(ls, i);
    if e < |ls| {
      StructuralIsNeutral(body, e);
    } else {
      assert ls[e..] == [] && Scan("") == [];
    }
    var a, c := Concat(ls[..i]), Concat(ls[e..]);
    Transplant(a, l.raw, c);
    WholeEdit(body, i, e, l.raw);
  }

  /** The edited text is closed and whole when the original is. */
  lemma WholeEdit(body: string, i: nat, e: nat, raw: string)
    requires i < e <= |Scan(body)|
    requires Whole(Concat(Scan(body)[i..e])) ==> Whole(raw)
    requires raw != ""
    ensures Whole(body) ==> Whole(Concat(Scan(body)[..i]) + raw + Concat(Scan(body)[e..]))
    ensures Closed(body) && e < |Scan(body)| && Scan(body)[e].structural ==> Closed(Concat(Scan(body)[e..]))
  {
    hide Classify, Lines;
    var ls := Scan(body);
    FileParts(body, i, e);
    EntryText(body, i, e);
    WholeSwap(Concat(ls[..i]), Concat(ls[i..e]), raw, Concat(ls[e..]));
    CutTexts(body, e);
  }

  lemma WholeSwap(a: string, old': string, raw: string, c: string)
    requires old' != "" && raw != "" && (Whole(old') ==> Whole(raw))
    ensures Whole(a + old' + c) ==> Whole(a + raw + c)
  {
    var x, y := a + old' + c, a + raw + c;
    if c == "" {
      assert x[|x| - 1] == old'[|old'| - 1] && y[|y| - 1] == raw[|raw| - 1];
    } else {
      assert x[|x| - 1] == c[|c| - 1] == y[|y| - 1];
    }
  }

  /** The settings of the edited body: the key's own pair in place of its old one or in front, every other as it was. */
  lemma SetLinesSettings(ls: seq<Line>, key: string, value: string, eol: string)
    requires OneLine(key, value) && IsEol(eol) && (ls != [] ==> ls[0].structural)
    ensures Settings(SetLines(ls, key, value, eol)) == SetPair(Settings(ls), key, value)
  {
    hide Classify, KeyAt, ValueOf, OneLine, Settings;
    var i := FindKey(ls, key);
    FindKeyFirst(ls, key);
    if i == |ls| {
      var l := NewLine(key, value, eol);
      NewLineFacts(key, value, eol);
      SettingsAppend([l], ls);
      SettingsOfLine(l, key);
      NoKeyNoPair(ls, key);
      FindPairIs(Settings(ls), key, |Settings(ls)|);
    } else {
      var e := LogicalEnd(ls, i);
      var eol' := if HasSuffix(Concat(ls[i..e]), LF) then eol else "";
      NewLineFacts(key, value, eol');
      EndFacts(ls, i);
      EntryAlone(ls, i);
      SplitSlices(ls, i, e - i);
      OverwriteSettings(ls[..i], ls[i..e], ls[e..], NewLine(key, value, eol'), key);
    }
  }

  lemma EntryAlone(ls: seq<Line>, i: nat)
    requires i < |ls|
    ensures var e := ls[i..LogicalEnd(ls, i)]; e != [] && e[0] == ls[i] && LogicalEnd(e, 0) == |e|
  {
    hide Classify;
    EndFacts(ls, i);
    var e := ls[i..LogicalEnd(ls, i)];
    AllContinue(e[1..]);
  }

  /** An assignment never makes a body end in detached filler. */
  lemma SetLinesKept(ls: seq<Line>, key: string, value: string, eol: string)
    requires OneLine(key, value) && IsEol(eol) && Keep(ls) == |ls|
    ensures var n := SetLines(ls, key, value, eol); Keep(n) == |n|
  {
    hide Classify, KeyAt, ValueOf, OneLine, Keep;
    KeepsAll(ls);
    var i := FindKey(ls, key);
    if i == |ls| {
      NewLineFacts(key, value, eol);
      AttachedAfter([], NewLine(key, value, eol), ls, ls);
      assert [] + [NewLine(key, value, eol)] + ls == [NewLine(key, value, eol)] + ls;
    } else {
      var e := LogicalEnd(ls, i);
      var eol' := if HasSuffix(Concat(ls[i..e]), LF) then eol else "";
      NewLineFacts(key, value, eol');
      AttachedAfter(ls[..i], NewLine(key, value, eol'), ls[e..], ls);
    }
    KeepsAll(SetLines(ls, key, value, eol));
  }

  lemma AttachedAfter(a: seq<Line>, l: Line, c: seq<Line>, ls: seq<Line>)
    requires !IsFiller(l) && !EndsDetached(ls) && |c| <= |ls| && ls[|ls| - |c|..] == c
    ensures !EndsDetached(a + [l] + c)
  {
    hide Classify, IsFiller;
    var n := a + [l] + c;
    forall k | 0 <= k < |n| ensures !Trailing(n[k..]) {
      if k <= |a| {
        assert n[k..][|a| - k] == l;
      } else {
        assert n[k..] == c[k - |a| - 1..] == ls[|ls| - |c| + k - |a| - 1..];
      }
    }
  }

  lemma SetLinesNoHeader(ls: seq<Line>, key: string, value: string, eol: string)
    requires NoHeader(ls)
    ensures NoHeader(SetLines(ls, key, value, eol))
  {
    hide Classify, KeyAt;
    var i := FindKey(ls, key);
    if i < |ls| {
      var e := LogicalEnd(ls, i);
      assert forall k :: 0 <= k < |ls[e..]| ==> ls[e..][k] == ls[e + k];
    }
  }

  lemma KeptBody(src: string, id: string)
    requires Locate(Scan(src), id).Ok?
    ensures var b := Locate(Scan(src), id).value;
            var ls := Scan(src)[b.head + 1..b.end];
            NoHeader(ls) && Keep(ls) == |ls|
  {
    hide Classify, Keep, FindHeader;
    SplitOf(Scan(src), id);
  }

  /**
   What SetKeyInBlock does to a file, as the editor itself reads it back: the list of tables and every other table's
   body stay, and in the table's own settings the key's pair is overwritten in place, or put first if it had none, with
   every other pair, multi-line values included, kept in order.
   */
  lemma SetKeyLaws(src: string, id: string, key: string, value: string, body: string)
    requires OpenForEdit(src, id) && OneLine(key, value) && Body(src, id) == Ok(body)
    ensures SetKey(src, id, key, value).Ok?
    ensures var out := SetKey(src, id, key, value).value;
            && Ids(Scan(out)) == Ids(Scan(src))
            && (forall other :: other != id ==> Body(out, other) == Body(src, other))
            && Body(out, id) == Ok(SetInBody(body, key, value, DominantEol(src)))
            && Settings(Scan(SetInBody(body, key, value, DominantEol(src)))) ==
                 SetPair(Settings(Scan(body)), key, value)
  {
    hide Classify, KeyAt, ValueOf, Keep, FindHeader, SetInBody, SetLines, Settings, SetPair;
    var eol := DominantEol(src);
    var n := SetInBody(body, key, value, eol);
    BodyIs(src, id);
    BodyRemovable(src, id);
    PartStandsAlone(src, Locate(Scan(src), id).value.head + 1, Locate(Scan(src), id).value.end);
    KeptBody(src, id);
    SetInBodyScans(body, key, value, eol);
    SetLinesNoHeader(Scan(body), key, value, eol);
    SetLinesKept(Scan(body), key, value, eol);
    SetLinesSettings(Scan(body), key, value, eol);
    var out := SetKey(src, id, key, value).value;
    BodyExchanged(src, id, n, out);
  }

  // ----- setting twice

  lemma SetLinesTwice(ls: seq<Line>, key: string, first: string, second: string, eol1: string, eol2: string)
    requires OneLine(key, first) && OneLine(key, second) && IsEol(eol1) && eol1 != "" && (ls != [] ==> ls[0].structural)
    ensures SetLines(SetLines(ls, key, first, eol1), key, second, eol2) == SetLines(ls, key, second, eol2)
  {
    hide Classify, KeyAt, ValueOf, OneLine, LogicalEnd;
    var i := FindKey(ls, key);
    FindKeyFirst(ls, key);
    if i == |ls| {
      NewLineFacts(key, first, eol1);
      SetAgain([], ls, key, first, second, eol1, eol2);
      assert forall l: Line :: [] + [l] + ls == [l] + ls;
    } else {
      var e := LogicalEnd(ls, i);
      var eol := if HasSuffix(Concat(ls[i..e]), LF) then eol1 else "";
      NewLineFacts(key, first, eol);
      EndFacts(ls, i);
      SetAgain(ls[..i], ls[e..], key, first, second, eol, eol2);
    }
  }

  /** Setting the key again where its assignment was just written. */
  lemma SetAgain(a: seq<Line>, c: seq<Line>, key: string, first: string, second: string, eol1: string, eol2: string)
    requires OneLine(key, first) && IsEol(eol1)
    requires forall k :: 0 <= k < |a| ==> KeyAt(a[k]) != Some(key)
    requires KeyAt(NewLine(key, first, eol1)) == Some(key)
    requires c == [] || c[0].structural
    ensures SetLines(a + [NewLine(key, first, eol1)] + c, key, second, eol2) ==
              a + [NewLine(key, second, if eol1 == "" then "" else eol2)] + c
  {
    hide Classify, KeyAt, ValueOf;
    var l := NewLine(key, first, eol1);
    var n := a + [l] + c;
    assert forall k :: 0 <= k < |a| ==> n[k] == a[k];
    FindKeyIs(n, key, |a|);
    assert n[|a| + 1..] == c && n[..|a|] == a;
    assert LogicalEnd(n, |a|) == |a| + 1;
    assert n[|a|..|a| + 1] == [l];
    assert Concat([l]) == l.raw + Concat([]);
    assert l.raw + "" == l.raw;
    EolOfAssignment(key, first, eol1);
  }

  lemma EolOfAssignment(key: string, value: string, eol: string)
    requires OneLine(key, value) && IsEol(eol)
    ensures HasSuffix(Assignment(key, value) + eol, LF) <==> eol != ""
  {
    hide Classify, Trim, Advance;
    var raw := Assignment(key, value) + eol;
    if eol == "" {
      assert raw[|raw| - 1] == if value == "" then ' ' else value[|value| - 1];
    } else {
      assert raw[|raw| - 1] == '\n';
    }
  }

  lemma SetInBodySpells(body: string, key: string, value: string, eol: string)
    requires OneLine(key, value) && IsEol(eol) && eol != ""
    ensures SetInBody(body, key, value, eol) == Concat(SetLines(Scan(body), key, value, eol))
  {
    hide Classify, KeyAt, OneLine, SetInBody, SetLines;
    SetInBodyScans(body, key, value, eol);
    LinesSpell(SetInBody(body, key, value, eol), NEUTRAL);
  }

  /** A second set overwrites the first in the body, whatever line endings they are made with. */
  lemma SetTwice(body: string, key: string, first: string, second: string, eol1: string, eol2: string)
    requires OneLine(key, first) && OneLine(key, second) && IsEol(eol1) && eol1 != "" && IsEol(eol2) && eol2 != ""
    ensures SetInBody(SetInBody(body, key, first, eol1), key, second, eol2) == SetInBody(body, key, second, eol2)
  {
    hide Classify, KeyAt, OneLine, SetInBody, SetLines;
    SetInBodyScans(body, key, first, eol1);
    SetInBodySpells(SetInBody(body, key, first, eol1), key, second, eol2);
    SetInBodySpells(body, key, second, eol2);
    SetLinesTwice(Scan(body), key, first, second, eol1, eol2);
  }
}
