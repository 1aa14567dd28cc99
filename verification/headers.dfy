/** Classifying one physical line: blank, comment, table header or anything else. */
module Headers {
  import opened Wrappers
  import opened Text
  import opened Quotes

  const BOM := "\U{FEFF}"

  datatype Kind = Blank | Comment | Header(id: string, simple: bool) | Other

  function Join(parts: seq<string>, sep: string): string {
    if |parts| == 0 then "" else if |parts| == 1 then parts[0] else parts[0] + sep + Join(parts[1..], sep)
  }

  /** The quoted key that s starts with, and how much of s it takes. */
  function QuotedPart(s: string): (r: Option<(string, nat)>)
    requires s != ""
    ensures r.Some? ==> 0 < r.value.1 <= |s|
  {
    if s[0] == '"' then
      var n := 1 + BasicLen(s[1..]);
      match DecodeBasic(s[..n])
      case None => None
      case Some(v) => Some((v, n))
    else
      var n := 1 + LiteralLen(s[1..]);
      if n <= 1 then None else Some((s[1..n - 1], n))
  }

  method QuotedPartAt(t: string, i: nat) returns (r: Option<(string, nat)>)
    requires i < |t|
    ensures match QuotedPart(t[i..])
            case None => r == None
            case Some((v, n)) => r == Some((v, i + n))
  {
    assert t[i..][1..] == t[i + 1..];
    if t[i] == '"' {
      var end := SkipBasic(t, i);
      assert t[i..end] == t[i..][..end - i];
      var v := DecodeBasic(t[i..end]);
      r := if v.None? then None else Some((v.value, end));
    } else {
      var end := SkipLiteral(t, i);
      if end <= i + 1 {
        return None;
      }
      assert t[i + 1..end - 1] == t[i..][1..end - i - 1];
      r := Some((t[i + 1..end - 1], end));
    }
  }

  /** The id and simplicity of the table header t, read from the text s that is left of it. */
  function HeaderFrom(s: string, parts: seq<string>, cur: string, quoted: bool, arrayTable: bool): Option<Kind>
    decreases |s|
  {
    if s == "" then None
    else if s[0] == ']' then
      var rest := TrimLeft(s[1..], {']', ' ', '\t'});
      var id := Join(parts + [cur], ".");
      if (rest != "" && rest[0] != '#') || id == "" then None
      else Some(Header(id, |parts| == 0 && !arrayTable))
    else if s[0] == '.' then HeaderFrom(s[1..], parts + [cur], "", quoted, arrayTable)
    else if s[0] == '"' || s[0] == '\'' then
      match QuotedPart(s)
      case None => None
      case Some((v, n)) => HeaderFrom(s[n..], parts, cur + v, true, arrayTable)
    else if s[0] == ' ' || s[0] == '\t' then HeaderFrom(s[1..], parts, cur, quoted, arrayTable)
    else if quoted then None
    else HeaderFrom(s[1..], parts, cur + [s[0]], quoted, arrayTable)
  }

  function ParsedHeader(t: string): Option<Kind>
    requires t != ""
  {
    var arrayTable := "[[" <= t;
    HeaderFrom(Drop(t, if arrayTable then 2 else 1), [], "", false, arrayTable)
  }

  method ParseHeader(t: string) returns (k: Option<Kind>)
    requires t != ""
    ensures k == ParsedHeader(t)
  {
    var arrayTable := "[[" <= t;
    var i := if arrayTable then 2 else 1;
    var parts: seq<string>, cur, quoted := [], "", false;
    ghost var goal := ParsedHeader(t);
    while i < |t|
      invariant i <= |t|
      invariant goal == HeaderFrom(t[i..], parts, cur, quoted, arrayTable)
    {
      ghost var s := t[i..];
      assert s[0] == t[i] && s[1..] == t[i + 1..];
      if t[i] == ']' {
        parts := parts + [cur];
        var rest := TrimLeft(t[i + 1..], {']', ' ', '\t'});
        if rest != "" && rest[0] != '#' {
          return None;
        }
        var id := Join(parts, ".");
        if id == "" {
          return None;
        }
        return Some(Header(id, |parts| == 1 && !arrayTable));
      } else if t[i] == '.' {
        parts, cur := parts + [cur], "";
        i := i + 1;
      } else if t[i] == '"' || t[i] == '\'' {
        var part := QuotedPartAt(t, i);
        if part.None? {
          return None;
        }
        assert t[part.value.1..] == s[part.value.1 - i..];
        cur, quoted := cur + part.value.0, true;
        i := part.value.1;
      } else if t[i] == ' ' || t[i] == '\t' {
        i := i + 1;
      } else {
        if quoted {
          return None;
        }
        cur := cur + [t[i]];
        i := i + 1;
      }
    }
    k := None;
  }

  /** classify: a byte-order mark may stand before the first header. */
  function Classify(raw: string): Kind {
    var t := Trim(if BOM <= raw then raw[|BOM|..] else raw, SPACE);
    if t == "" then Blank
    else if t[0] == '#' then Comment
    else if t[0] == '[' then
      match ParsedHeader(t)
      case Some(k) => k
      case None => Other
    else Other
  }

  // ----- bare table ids

  predicate IsBare(c: char) {
    'a' <= c <= 'z' || 'A' <= c <= 'Z' || '0' <= c <= '9' || c == '-' || c == '_'
  }

  /** A table id the dashboard accepts: a non-empty bare TOML key. */
  predicate IsBareId(id: string) {
    id != "" && forall i :: 0 <= i < |id| ==> IsBare(id[i])
  }

  lemma {:induction false} BareHeaderFrom(done: string, todo: string)
    requires done + todo != ""
    requires forall i :: 0 <= i < |todo| ==> IsBare(todo[i])
    ensures HeaderFrom(todo + "]", [], done, false, false) == Some(Header(done + todo, true))
    decreases todo
  {
    if todo == "" {
      assert done + todo == done;
      assert ([] + [done])[0] == done;
    } else {
      assert (todo + "]")[1..] == todo[1..] + "]";
      assert done + todo == done + [todo[0]] + todo[1..];
      BareHeaderFrom(done + [todo[0]], todo[1..]);
    }
  }

  /** The header line the dashboard writes for a new table is read back as that simple table. */
  lemma BareHeaderClassified(id: string, eol: string)
    requires IsBareId(id) && (eol == LF || eol == CRLF)
    ensures Classify("[" + id + "]" + eol) == Header(id, true)
  {
    hide HeaderFrom, Trim, Classify;
    var t := "[" + id + "]";
    TrimHeader(id, eol);
    ClassifyTrimmed(t + eol, t);
    assert t[1] == id[0];
    ParsedPlain(t, id + "]");
    BareHeaderFrom("", id);
    assert "" + id == id;
  }

  lemma ClassifyTrimmed(raw: string, t: string)
    requires !(BOM <= raw) && Trim(raw, SPACE) == t && t != "" && t[0] == '['
    ensures Classify(raw) == match ParsedHeader(t) { case Some(k) => k case None => Other }
  {
    hide HeaderFrom, Trim;
  }

  lemma ParsedPlain(t: string, s: string)
    requires t != "" && !("[[" <= t) && t[1..] == s
    ensures ParsedHeader(t) == HeaderFrom(s, [], "", false, false)
  {
  }

  lemma TrimHeader(id: string, eol: string)
    requires eol == LF || eol == CRLF
    ensures Trim("[" + id + "]" + eol, SPACE) == "[" + id + "]"
    ensures !(BOM <= "[" + id + "]" + eol)
  {
    var t := "[" + id + "]";
    assert "" + t + eol == t + eol;
    TrimUnique("", t, eol, SPACE);
    assert (t + eol)[0] == '[';
  }

  // ----- the kinds of a line

  predicate IsSpace(c: char) {
    c == ' ' || c == '\t' || c == '\r' || c == '\n'
  }

  /** The first character that is not white space. */
  predicate StartsWith(s: string, c: char) {
    exists i :: 0 <= i < |s| && s[i] == c && forall j :: 0 <= j < i ==> IsSpace(s[j])
  }

  lemma TrimBegins(s: string, c: char)
    requires !IsSpace(c)
    ensures StartsWith(s, c) <==> Trim(s, SPACE) != "" && Trim(s, SPACE)[0] == c
    ensures Trim(s, SPACE) == "" <==> forall i :: 0 <= i < |s| ==> IsSpace(s[i])
  {
    var l := TrimLeft(s, SPACE);
    var r := TrimRight(l, SPACE);
    var k := |s| - |l|;
    if l != "" {
      assert s[k] == l[0] && !IsSpace(l[0]);
      assert r == l[..|r|];
    }
    forall i | 0 <= i < k ensures IsSpace(s[i]) { assert s[i] in SPACE; }
  }

  lemma {:induction false} HeaderFromIsHeader(s: string, parts: seq<string>, cur: string, quoted: bool,
                                              arrayTable: bool)
    ensures var r := HeaderFrom(s, parts, cur, quoted, arrayTable); r.Some? ==> r.value.Header?
    decreases |s|
  {
    if s == "" || s[0] == ']' {
    } else if s[0] == '.' {
      HeaderFromIsHeader(s[1..], parts + [cur], "", quoted, arrayTable);
    } else if s[0] == '"' || s[0] == '\'' {
      var q := QuotedPart(s);
      if q.Some? { HeaderFromIsHeader(s[q.value.1..], parts, cur + q.value.0, true, arrayTable); }
    } else if s[0] == ' ' || s[0] == '\t' {
      HeaderFromIsHeader(s[1..], parts, cur, quoted, arrayTable);
    } else {
      HeaderFromIsHeader(s[1..], parts, cur + [s[0]], quoted, arrayTable);
    }
  }

  /** The kind of a line, by its trimmed text. */
  lemma KindOfTrimmed(raw: string, t: string)
    requires t == Trim(if BOM <= raw then raw[|BOM|..] else raw, SPACE)
    ensures Classify(raw) == Blank <==> t == ""
    ensures Classify(raw) == Comment <==> t != "" && t[0] == '#'
    ensures Classify(raw).Header? ==> t != "" && t[0] == '['
  {
    hide HeaderFrom, Trim;
    if t != "" && t[0] == '[' {
      HeaderFromIsHeader(Drop(t, if "[[" <= t then 2 else 1), [], "", false, "[[" <= t);
    }
  }

  /**
   * A line is blank exactly if it is white space, a comment exactly if it starts with #, and a header only if it starts
   * with an opening bracket, a byte-order mark at its very start aside.
   */
  lemma KindIs(raw: string)
    ensures var s := if raw != "" && raw[0] == '\U{FEFF}' then raw[1..] else raw;
            && (Classify(raw) == Blank <==> forall i :: 0 <= i < |s| ==> IsSpace(s[i]))
            && (Classify(raw) == Comment <==> StartsWith(s, '#'))
            && (Classify(raw).Header? ==> StartsWith(s, '['))
  {
    assert BOM <= raw <==> raw != "" && raw[0] == '\U{FEFF}';
    hide Classify, Trim, StartsWith;
    var s := if raw != "" && raw[0] == '\U{FEFF}' then raw[1..] else raw;
    TrimBegins(s, '#');
    TrimBegins(s, '[');
    KindOfTrimmed(raw, Trim(s, SPACE));
  }

  // ----- headers as they are written

  /** One part of a dotted name, and the three ways to write it. */
  datatype Part = Plain(name: string) | Basic(name: string) | Literal(name: string)

  predicate IsPart(p: Part) {
    match p
    case Plain(name) => IsBareId(name)
    case Basic(name) => DEL !in name
    case Literal(name) => '\'' !in name && '\n' !in name
  }

  function PartText(p: Part): string {
    match p
    case Plain(name) => name
    case Basic(name) => Quote(name)
    case Literal(name) => "'" + name + "'"
  }

  function Names(parts: seq<Part>): (r: seq<string>)
    ensures |r| == |parts|
  {
    seq(|parts|, i requires 0 <= i < |parts| => parts[i].name)
  }

  function PartTexts(parts: seq<Part>): (r: seq<string>)
    ensures |r| == |parts|
  {
    seq(|parts|, i requires 0 <= i < |parts| => PartText(parts[i]))
  }

  /** A table header: brackets, single or double, around a dotted name. */
  function Heading(parts: seq<Part>, arrayTable: bool): string {
    (if arrayTable then "[[" else "[") + Join(PartTexts(parts), ".") + (if arrayTable then "]]" else "]")
  }

  /** Blanks, and then white space or a comment. */
  predicate IsAfter(c: string) {
    exists i: nat :: i <= |c| && (forall j :: 0 <= j < i ==> c[j] == ' ' || c[j] == '\t')
      && ((forall j :: i <= j < |c| ==> IsSpace(c[j])) || c[i] == '#')
  }

  /** No bare part comes after a quoted one. */
  predicate QuotesLast(parts: seq<Part>) {
    forall i, j :: 0 <= i < j < |parts| && parts[j].Plain? ==> parts[i].Plain?
  }

  lemma {:induction false} BareLeft(name: string, rest: string, done: seq<string>, cur: string, arrayTable: bool)
    requires forall i :: 0 <= i < |name| ==> IsBare(name[i])
    ensures HeaderFrom(name + rest, done, cur, false, arrayTable) ==
            HeaderFrom(rest, done, cur + name, false, arrayTable)
    decreases |name|
  {
    if name == "" {
      assert name + rest == rest && cur + name == cur;
    } else {
      assert IsBare(name[0]) && (name + rest)[0] == name[0];
      assert (name + rest)[1..] == name[1..] + rest;
      BareLeft(name[1..], rest, done, cur + [name[0]], arrayTable);
      assert cur + [name[0]] + name[1..] == cur + name;
    }
  }

  lemma LiteralRead(name: string, rest: string)
    requires '\'' !in name && '\n' !in name
    ensures QuotedPart("'" + name + "'" + rest) == Some((name, |name| + 2))
  {
    var s := "'" + name + "'" + rest;
    assert s[1..] == name + ("'" + rest);
    LiteralStops(name, rest);
    assert s[1..|name| + 1] == name;
  }

  lemma {:induction false} LiteralStops(name: string, rest: string)
    requires '\'' !in name && '\n' !in name
    ensures LiteralLen(name + ("'" + rest)) == |name| + 1
  {
    var s := name + ("'" + rest);
    if name == "" {
      assert s[0] == '\'';
    } else {
      assert s[0] == name[0] && name[0] in name;
      assert s[1..] == name[1..] + ("'" + rest);
      LiteralStops(name[1..], rest);
    }
  }

  lemma BasicRead(name: string, rest: string)
    requires DEL !in name
    ensures QuotedPart(Quote(name) + rest) == Some((name, |Quote(name)|))
  {
    hide DecodeBasic, EscapeAll, BasicLen;
    var s := Quote(name) + rest;
    assert s[1..] == EscapeAll(name) + "\"" + rest;
    EscapeAllScans(name, rest);
    assert s[..|Quote(name)|] == Quote(name);
    QuoteDecodes(name);
  }

  /** One part is read to its end, unless it is a bare one after a quoted one. */
  lemma PartRead(p: Part, rest: string, done: seq<string>, quoted: bool, arrayTable: bool)
    requires IsPart(p)
    ensures HeaderFrom(PartText(p) + rest, done, "", quoted, arrayTable) ==
            if quoted && p.Plain? then None else HeaderFrom(rest, done, p.name, quoted || !p.Plain?, arrayTable)
  {
    hide QuotedPart, Quote;
    var s := PartText(p) + rest;
    match p {
      case Plain(name) =>
        if quoted {
          assert s[0] == name[0] && IsBare(name[0]);
        } else {
          BareLeft(name, rest, done, "", arrayTable);
          assert "" + name == name;
        }
      case Basic(name) =>
        BasicRead(name, rest);
        QuoteOpens(name);
        assert s[|Quote(name)|..] == rest && "" + name == name;
      case Literal(name) =>
        LiteralRead(name, rest);
        assert s[|name| + 2..] == rest && "" + name == name;
    }
  }

  lemma QuoteOpens(name: string)
    ensures Quote(name) != "" && Quote(name)[0] == '"'
  {
  }

  lemma {:induction false} PartsRead(parts: seq<Part>, rest: string, done: seq<string>, quoted: bool, arrayTable: bool)
    requires parts != [] && (forall i :: 0 <= i < |parts| ==> IsPart(parts[i])) && rest != "" && rest[0] == ']'
    ensures HeaderFrom(Join(PartTexts(parts), ".") + rest, done, "", quoted, arrayTable) ==
            if QuotesLast(parts) && (quoted ==> forall i :: 0 <= i < |parts| ==> !parts[i].Plain?)
            then HeadingEnd(rest, done + Names(parts), arrayTable)
            else None
    decreases |parts|
  {
    hide IsPart, PartText;
    var p, more := parts[0], parts[1..];
    if more == [] {
      assert Join(PartTexts(parts), ".") == PartText(p);
      PartRead(p, rest, done, quoted, arrayTable);
      assert done + [p.name] == done + Names(parts);
    } else {
      var tail := Join(PartTexts(more), ".") + rest;
      assert PartTexts(parts)[1..] == PartTexts(more);
      assert Join(PartTexts(parts), ".") + rest == PartText(p) + ("." + tail);
      PartRead(p, "." + tail, done, quoted, arrayTable);
      assert ("." + tail)[1..] == tail;
      PartsRead(more, rest, done + [p.name], quoted || !p.Plain?, arrayTable);
      assert done + [p.name] + Names(more) == done + Names(parts);
      QuotesLastRest(parts);
    }
  }

  lemma QuotesLastRest(parts: seq<Part>)
    requires parts != []
    ensures QuotesLast(parts) <==>
            QuotesLast(parts[1..]) && (!parts[0].Plain? ==> forall i :: 0 <= i < |parts[1..]| ==> !parts[1..][i].Plain?)
  {
    assert forall i :: 0 < i < |parts| ==> parts[i] == parts[1..][i - 1];
  }

  /** What is read at the closing bracket. */
  function HeadingEnd(s: string, names: seq<string>, arrayTable: bool): Option<Kind>
    requires s != "" && names != []
  {
    var rest := TrimLeft(s[1..], {']', ' ', '\t'});
    if (rest != "" && rest[0] != '#') || Join(names, ".") == "" then None
    else Some(Header(Join(names, "."), |names| == 1 && !arrayTable))
  }

  lemma AfterTrimmed(c: string) returns (i: nat)
    requires IsAfter(c)
    ensures var c' := TrimRight(c, SPACE); c' == "" || (i < |c'| && AllIn(c'[..i], BLANK) && c'[i] == '#')
  {
    hide TrimRight;
    i :| i <= |c| && (forall j :: 0 <= j < i ==> c[j] == ' ' || c[j] == '\t')
      && ((forall j :: i <= j < |c| ==> IsSpace(c[j])) || c[i] == '#');
    var c' := TrimRight(c, SPACE);
    if c[i..] == "" || c[i] != '#' {
      assert forall j :: 0 <= j < |c| ==> IsSpace(c[j]);
    } else {
      assert c[i] !in SPACE;
    }
  }

  lemma AfterBrackets(s: string, c: string)
    requires IsAfter(c) && AllIn(s, {']'})
    ensures var rest := TrimLeft(s + TrimRight(c, SPACE), {']', ' ', '\t'}); rest == "" || rest[0] == '#'
  {
    hide TrimLeft, TrimRight, IsAfter;
    var i := AfterTrimmed(c);
    if TrimRight(c, SPACE) == "" {
      BothIn(s, "", {']'}, {']'}, {']', ' ', '\t'});
      TrimLeftSkips(s, "", {']', ' ', '\t'});
    } else {
      AfterBlanks(s, TrimRight(c, SPACE), i);
    }
  }

  lemma AfterBlanks(s: string, c: string, i: nat)
    requires i < |c| && AllIn(s, {']'}) && AllIn(c[..i], BLANK) && c[i] == '#'
    ensures var rest := TrimLeft(s + c, {']', ' ', '\t'}); rest != "" && rest[0] == '#'
  {
    hide TrimLeft;
    var cut := {']', ' ', '\t'};
    BothIn(s, c[..i], {']'}, BLANK, cut);
    TrimLeftSkips(s + c[..i], c[i..], cut);
    SeqAssoc(s, c[..i], c[i..]);
    assert c[..i] + c[i..] == c;
    NothingToTrim(c[i..], cut);
  }

  lemma BothIn(a: string, b: string, x: set<char>, y: set<char>, cut: set<char>)
    requires AllIn(a, x) && AllIn(b, y) && x <= cut && y <= cut
    ensures AllIn(a + b, cut)
  {
    forall i | 0 <= i < |a + b| ensures (a + b)[i] in cut {
      assert (a + b)[i] == if i < |a| then a[i] else b[i - |a|];
    }
  }

  lemma NothingToTrim(s: string, cut: set<char>)
    requires s != "" && s[0] !in cut
    ensures TrimLeft(s, cut) == s
  {
  }

  lemma HeadingTrims(indent: string, parts: seq<Part>, arrayTable: bool, tail: string)
    requires AllIn(indent, SPACE)
    ensures Trim(indent + Heading(parts, arrayTable) + tail, SPACE) ==
            Heading(parts, arrayTable) + TrimRight(tail, SPACE)
    ensures !(BOM <= indent + Heading(parts, arrayTable) + tail)
  {
    hide Join, PartTexts, Trim, TrimRight;
    var h, c := Heading(parts, arrayTable), TrimRight(tail, SPACE);
    assert |h| >= 2 && h[0] == '[' && h[|h| - 1] == ']';
    hide Heading;
    Inked(h, c);
    TrimUnique(indent, h + c, tail[|c|..], SPACE);
    assert tail == c + tail[|c|..];
    assert indent + (h + c) + tail[|c|..] == indent + h + tail;
    assert (indent + h + tail)[0] == if indent == "" then '[' else indent[0];
  }

  lemma Inked(h: string, c: string)
    requires |h| >= 2 && h[0] == '[' && h[|h| - 1] == ']' && (c == "" || c[|c| - 1] !in SPACE)
    ensures (h + c)[0] !in SPACE && (h + c)[|h + c| - 1] !in SPACE
  {
  }

  lemma HeadingParsed(parts: seq<Part>, arrayTable: bool, tail: string)
    requires parts != [] && forall i :: 0 <= i < |parts| ==> IsPart(parts[i])
    ensures var close := if arrayTable then "]]" else "]";
            ParsedHeader(Heading(parts, arrayTable) + tail) ==
            if QuotesLast(parts) then HeadingEnd(close + tail, Names(parts), arrayTable) else None
  {
    hide HeaderFrom, HeadingEnd, IsPart, PartText, QuotesLast;
    var t := Heading(parts, arrayTable) + tail;
    var body, close := Join(PartTexts(parts), "."), if arrayTable then "]]" else "]";
    FirstOfParts(parts);
    hide Join, PartTexts, Names;
    if arrayTable {
      assert t[..2] == "[[" && t[2..] == body + (close + tail);
    } else {
      assert t[1] == body[0] && t[1..] == body + (close + tail);
    }
    PartsRead(parts, close + tail, [], false, arrayTable);
    assert [] + Names(parts) == Names(parts);
  }

  lemma FirstOfParts(parts: seq<Part>)
    requires parts != [] && IsPart(parts[0])
    ensures var s := Join(PartTexts(parts), "."); s != "" && s[0] != '['
  {
    FirstOfPart(parts[0]);
    assert PartTexts(parts)[0] == PartText(parts[0]);
    hide PartText;
  }

  lemma FirstOfPart(p: Part)
    requires IsPart(p)
    ensures PartText(p) != "" && PartText(p)[0] != '['
  {
    hide Quote;
    match p
    case Plain(name) => assert IsBare(name[0]);
    case Basic(name) => QuoteOpens(name);
    case Literal(name) =>
  }

  /**
   * A header is read as the table it names, simple if it is of one part in single brackets, whatever comment follows;
   * but one with a bare part after a quoted one, legal as that is, is not taken for a header at all.
   */
  lemma HeadingReads(indent: string, parts: seq<Part>, arrayTable: bool, tail: string)
    requires AllIn(indent, SPACE) && IsAfter(tail)
    requires parts != [] && forall i :: 0 <= i < |parts| ==> IsPart(parts[i])
    ensures Classify(indent + Heading(parts, arrayTable) + tail) ==
            if QuotesLast(parts) && Join(Names(parts), ".") != ""
            then Header(Join(Names(parts), "."), |parts| == 1 && !arrayTable) else Other
  {
    hide ParsedHeader, IsPart, Trim, TrimRight, Join, PartTexts, QuotesLast, Classify, Names, IsAfter, Heading;
    hide HeadingEnd;
    var t := Heading(parts, arrayTable) + TrimRight(tail, SPACE);
    HeadingTrims(indent, parts, arrayTable, tail);
    HeadingOpens(parts, arrayTable);
    ClassifyTrimmed(indent + Heading(parts, arrayTable) + tail, t);
    HeadingParsed(parts, arrayTable, TrimRight(tail, SPACE));
    HeadingEnds(arrayTable, tail, Names(parts));
  }

  lemma HeadingOpens(parts: seq<Part>, arrayTable: bool)
    ensures Heading(parts, arrayTable) != "" && Heading(parts, arrayTable)[0] == '['
  {
  }

  lemma HeadingEnds(arrayTable: bool, tail: string, names: seq<string>)
    requires IsAfter(tail) && names != []
    ensures HeadingEnd((if arrayTable then "]]" else "]") + TrimRight(tail, SPACE), names, arrayTable) ==
            if Join(names, ".") == "" then None else Some(Header(Join(names, "."), |names| == 1 && !arrayTable))
  {
    hide Join, TrimRight, TrimLeft, IsAfter;
    var c, more := TrimRight(tail, SPACE), if arrayTable then "]" else "";
    AfterBrackets(more, tail);
    assert ((if arrayTable then "]]" else "]") + c)[1..] == more + c;
  }

  /** The text from i on closes a header: after the bracket come blanks, brackets and a comment, and nothing else. */
  predicate ClosesAt(s: string, i: nat) {
    i < |s| && s[i] == ']' &&
    var rest := TrimLeft(s[i + 1..], {']', ' ', '\t'});
    rest == "" || rest[0] == '#'
  }

  /** And whatever is taken for a header closes so. */
  lemma {:induction false} HeaderCloses(s: string, parts: seq<string>, cur: string, quoted: bool, arrayTable: bool)
    returns (i: nat)
    requires HeaderFrom(s, parts, cur, quoted, arrayTable).Some?
    ensures ClosesAt(s, i)
    decreases |s|
  {
    hide TrimLeft, QuotedPart, ClosesAt;
    if s[0] == ']' {
      i := 0;
      ClosesHere(s);
    } else {
      var k := 1;
      if s[0] == '.' {
        i := HeaderCloses(s[1..], parts + [cur], "", quoted, arrayTable);
      } else if s[0] == '"' || s[0] == '\'' {
        var q := QuotedPart(s).value;
        k := q.1;
        i := HeaderCloses(s[k..], parts, cur + q.0, true, arrayTable);
      } else if s[0] == ' ' || s[0] == '\t' {
        i := HeaderCloses(s[1..], parts, cur, quoted, arrayTable);
      } else {
        i := HeaderCloses(s[1..], parts, cur + [s[0]], quoted, arrayTable);
      }
      ClosesLater(s, k, i);
      i := k + i;
    }
  }

  lemma ClosesHere(s: string)
    requires s != "" && s[0] == ']'
    requires var rest := TrimLeft(s[1..], {']', ' ', '\t'}); rest == "" || rest[0] == '#'
    ensures ClosesAt(s, 0)
  {
  }

  lemma ClosesLater(s: string, k: nat, i: nat)
    requires k <= |s| && ClosesAt(s[k..], i)
    ensures ClosesAt(s, k + i)
  {
    hide TrimLeft;
    assert s[k..][i + 1..] == s[k + i + 1..];
  }
}
