/**
 * The mask round trip: a rewritten assignment scans as the assignment it spells, so two rewrites compose, masking twice
 * is masking once, and unmasking puts back what masking took away.
 */
module MaskRound {
  import opened Wrappers
  import opened Text
  import opened Quotes
  import opened Headers
  import opened Lexer
  import opened Tables
  import opened Edits
  import opened Assigns
  import opened Blocks
  import opened Masking

  // ----- one assignment on its own

  /** Closed text in which no line but the first is structural. */
  predicate Single(s: string) {
    Closed(s) && forall i :: 1 <= i < |Scan(s)| ==> !Scan(s)[i].structural
  }

  /** Characters of one line that a neutral scanner passes over. */
  predicate Passed(p: string) {
    forall i :: 0 <= i < |p| ==> Inert(p[i]) && p[i] != '\n'
  }

  /** What stands before a value on its line does not matter to the scanner. */
  lemma PrefixSingle(p: string, x: string)
    requires Passed(p) && x != ""
    ensures Single(p + x) <==> Single(x)
  {
    hide Classify, Advance, Lines, After;
    var n := LineLen(x);
    PrefixLine(p, x);
    InertPrefix(p, x[..n]);
    SplitAtFirstLine(x);
    SeqAssoc(p, x[..n], x[n..]);
    WholeAppend(p, x[..n]);
    PrependLine(x[..n], x[n..], NEUTRAL);
    PrependLine(p + x[..n], x[n..], NEUTRAL);
    ghost var rest := Lines(x[n..], Advance(x[..n], NEUTRAL));
    assert Scan(x) == [MkLine(x[..n], NEUTRAL)] + rest;
    assert Scan(p + x) == [MkLine(p + x[..n], NEUTRAL)] + rest;
    assert forall i :: 1 <= i < |Scan(x)| ==> Scan(x)[i] == rest[i - 1] == Scan(p + x)[i];
  }

  lemma PrefixLine(p: string, x: string)
    requires Passed(p) && x != ""
    ensures var n := LineLen(x);
            && LineLen(p + x[..n]) == |p + x[..n]| && p + x == p + x[..n] + x[n..]
            && (x[n..] == "" || Whole(p + x[..n]))
  {
    var n := LineLen(x);
    var raw := p + x[..n];
    assert forall i :: 0 <= i < |p| ==> raw[i] == p[i];
    assert forall i :: 0 <= i < n ==> raw[|p| + i] == x[i];
    assert forall i :: 0 <= i < |raw| - 1 ==> raw[i] != '\n';
    assert n < |x| ==> raw[|raw| - 1] == '\n';
  }

  /** A name that can stand alone before an equals sign, as keyOf reports it, and opens no inline table. */
  predicate PlainName(n: string) {
    n != "" && Trim(n, BLANK) == n && KeyChars(n) && '=' !in n && '\n' !in n && '{' !in n
  }

  /** The assignment of v to n, written on its own, scans as exactly that. */
  predicate Writable(n: string, v: string) {
    var raw := Rewritten(n, v);
    Single(raw) && raw != "" && KeyAt(Scan(raw)[0]) == Some(n) && ValueOf(raw) == v
  }

  /** Text before an equals sign that is neither a comment nor a header makes its line an assignment. */
  lemma KeyedLine(p: string, rest: string)
    requires forall i :: 0 <= i < |p| ==> p[i] != '#' && p[i] != '['
    ensures Classify(p + "=" + rest) == Other
  {
    hide ParsedHeader;
    var raw := p + "=" + rest;
    assert raw[|p|] == '=' && forall i :: 0 <= i < |p| ==> raw[i] == p[i];
    var cut := if BOM <= raw then raw[|BOM|..] else raw;
    var e := if BOM <= raw then |p| - 1 else |p|;
    assert BOM <= raw ==> raw[0] == BOM[0] && BOM[0] != '=';
    assert cut[e] == '=' && forall i :: 0 <= i < e ==> cut[i] != '#' && cut[i] != '[';
    InkStart(cut, e);
  }

  lemma InkStart(s: string, e: nat)
    requires e < |s| && s[e] == '=' && forall i :: 0 <= i < e ==> s[i] != '#' && s[i] != '['
    ensures Trim(s, SPACE) != "" && Trim(s, SPACE)[0] != '#' && Trim(s, SPACE)[0] != '['
  {
    var r := TrimLeft(s, SPACE);
    assert s[e] !in SPACE;
    assert |s| - |r| <= e;
    assert r[0] == s[|s| - |r|];
    var q := TrimRight(r, SPACE);
    assert q != "" by { assert r[0] !in SPACE; }
    assert q[0] == r[0];
  }

  lemma NameLine(n: string, rest: string)
    requires PlainName(n)
    ensures KeyOf(n + " =" + rest) == Some(n) && Classify(n + " =" + rest) == Other
    ensures Drop(n + " =" + rest, First(n + " =" + rest, '=') + 1) == rest
  {
    hide Trim, First, Classify;
    var raw := n + " =" + rest;
    assert forall i :: 0 <= i < |n| ==> raw[i] == n[i] && n[i] in n;
    assert raw[|n|] == ' ' && raw[|n| + 1] == '=';
    assert First(raw, '=') == |n| + 1;
    assert raw[..|n| + 1] == n + " ";
    BlankTail(n);
    assert n + " " + "=" + rest == raw;
    assert forall i :: 0 <= i < |n + " "| ==> (n + " ")[i] != '#' && (n + " ")[i] != '[';
    KeyedLine(n + " ", rest);
  }

  lemma BlankTail(n: string)
    requires Trim(n, BLANK) == n
    ensures Trim(n + " ", BLANK) == n
  {
    hide Trim;
    assert n == "" || (n[0] !in BLANK && n[|n| - 1] !in BLANK) by { assert Trim(n, BLANK) == n; }
    TrimUnique("", n, " ", BLANK);
    assert "" + n + " " == n + " ";
  }

  /** What is written for n reads back as n, whatever the value. */
  lemma RewrittenReads(n: string, v: string)
    requires PlainName(n) && Trim(v, SPACE) == v
    ensures var raw := Rewritten(n, v);
            raw != "" && Scan(raw) != [] && KeyAt(Scan(raw)[0]) == Some(n) && ValueOf(raw) == v
  {
    hide Trim, First, Classify, KeyOf;
    var raw := Rewritten(n, v);
    NameLine(n, " " + v + LF);
    assert raw == n + " =" + (" " + v + LF);
    ValuePadded(v);
    var k := LineLen(raw);
    HeadLine(n, v);
    var tail := raw[|n| + 2..k];
    assert raw[..k] == n + " =" + tail;
    NameLine(n, tail);
  }

  lemma ValuePadded(v: string)
    requires Trim(v, SPACE) == v
    ensures Trim(" " + v + LF, SPACE) == v
  {
    hide Trim;
    assert v == "" || (v[0] !in SPACE && v[|v| - 1] !in SPACE) by { assert Trim(v, SPACE) == v; }
    TrimUnique(" ", v, LF, SPACE);
  }

  lemma HeadLine(n: string, v: string)
    requires '\n' !in n
    ensures |n| + 2 < LineLen(Rewritten(n, v)) <= |Rewritten(n, v)|
  {
    var raw := Rewritten(n, v);
    var k := LineLen(raw);
    assert forall i :: 0 <= i < |n| ==> raw[i] == n[i];
    assert raw[|n|] == ' ' && raw[|n| + 1] == '=' && raw[|n| + 2] == ' ';
    assert k < |raw| ==> raw[k - 1] == '\n';
  }

  lemma NamePassed(n: string)
    requires PlainName(n)
    ensures Passed(n + " = ")
  {
    var p := n + " = ";
    forall i | 0 <= i < |p| ensures Inert(p[i]) && p[i] != '\n' {
      assert i < |n| ==> p[i] == n[i] && n[i] in n;
    }
  }

  /** A trimmed value that is closed text with one structural line can be written under any plain name. */
  lemma SingleWritable(n: string, v: string)
    requires PlainName(n) && Trim(v, SPACE) == v && Single(v + LF)
    ensures Writable(n, v)
  {
    hide Trim, Single, KeyAt, ValueOf;
    NamePassed(n);
    PrefixSingle(n + " = ", v + LF);
    assert Rewritten(n, v) == n + " = " + (v + LF);
    RewrittenReads(n, v);
  }

  lemma MaskWritable(n: string)
    requires PlainName(n)
    ensures Writable(n, MASKED_SECRET)
  {
    hide Trim;
    MaskIsText();
    SingleWritable(n, MASKED_SECRET);
  }

  lemma MaskIsText()
    ensures Trim(MASKED_SECRET, SPACE) == MASKED_SECRET && Single(MASKED_SECRET + LF)
  {
    hide Trim, Classify;
    TrimUnique("", MASKED_SECRET, "", SPACE);
    assert "" + MASKED_SECRET + "" == MASKED_SECRET;
    var raw := MASKED_SECRET + LF;
    assert forall i :: 0 <= i < 10 ==> raw[i] != '\n';
    assert raw[10] == '\n' && First(raw, '\n') == 10;
    SingleLine(raw, NEUTRAL);
    MaskScans(raw);
  }

  lemma MaskScans(raw: string)
    requires raw == MASKED_SECRET + LF
    ensures Advance(raw, NEUTRAL) == NEUTRAL
  {
    hide Advance, BasicLen;
    var dots := MASKED_SECRET[1..9];
    assert raw[1..] == dots + "\"" + LF;
    PlainBasic(dots, LF);
    AdvanceBasic(raw, 10, NEUTRAL);
    assert raw[1] != '"' && Drop(raw, 10) == LF;
    SpacesKeep(LF, NEUTRAL);
  }

  /** Without quotes and escapes a basic string ends at the first quote. */
  lemma {:induction false} PlainBasic(s: string, rest: string)
    requires forall i :: 0 <= i < |s| ==> s[i] != '"' && s[i] != '\\' && s[i] != '\n'
    ensures BasicLen(s + "\"" + rest) == |s| + 1
  {
    var all := s + "\"" + rest;
    if s == "" {
      assert all[0] == '"';
    } else {
      PlainBasic(s[1..], rest);
      assert all[0] == s[0] && all[1..] == s[1..] + "\"" + rest;
    }
  }

  // ----- the value of an assignment

  /** The key of an assignment and where its line has it. */
  lemma KeyParts(text: string, n: string) returns (p: string, x: string)
    requires text != "" && Scan(text) != [] && KeyAt(Scan(text)[0]) == Some(n) && '{' !in n
    ensures PlainName(n) && Passed(p) && text == p + x && ValueOf(text) == Trim(x, SPACE)
  {
    hide Trim, First, Classify;
    var k := LineLen(text);
    var raw := text[..k];
    assert Scan(text)[0].raw == raw;
    var e := First(raw, '=');
    FirstPrefix(raw, text[k..]);
    assert text == raw + text[k..];
    p, x := text[..e + 1], text[e + 1..];
    assert forall i :: 0 <= i < e ==> raw[i] != '=' && raw[i] != '\n';
    var left, right := TrimParts(raw[..e], BLANK);
    KeyOfParts(raw[..e], left, n, right);
    assert p == raw[..e] + "=";
    assert x == Drop(text, e + 1);
  }

  /** The characters of a bare key and of the blanks around it. */
  lemma KeyOfParts(s: string, left: string, n: string, right: string)
    requires s == left + n + right && n == Trim(s, BLANK) && n != "" && KeyChars(n) && '{' !in n
    requires AllIn(left, BLANK) && AllIn(right, BLANK)
    requires forall i :: 0 <= i < |s| ==> s[i] != '=' && s[i] != '\n'
    ensures PlainName(n) && Passed(s + "=")
  {
    hide Trim;
    TrimUnique("", n, "", BLANK);
    assert "" + n + "" == n;
    assert forall i :: 0 <= i < |n| ==> s[|left| + i] == n[i];
    forall i | 0 <= i < |s| ensures Inert(s[i]) {
      if i < |left| { assert s[i] == left[i]; }
      else if i < |left| + |n| { assert s[i] == n[i - |left|]; }
      else { assert s[i] == right[i - |left| - |n|]; }
    }
  }

  /** After a blank line the next line is structural. */
  lemma SecondLine(w: string, v: string)
    requires AllIn(w, SPACE) && '\n' in w && v != ""
    ensures |Scan(w + v)| > 1 && Scan(w + v)[1].structural
  {
    hide Classify;
    var k := First(w, '\n');
    var raw := w[..k + 1];
    var rest := w[k + 1..] + v;
    assert w + v == raw + rest && rest != "";
    assert First(raw, '\n') == k;
    SpacesKeep(raw, NEUTRAL);
    PrependLine(raw, rest, NEUTRAL);
    assert Scan(w + v)[1] == Lines(rest, NEUTRAL)[0];
  }

  /** So white space before a value keeps it on the line of its key. */
  lemma LeadingSpace(w: string, v: string)
    requires AllIn(w, SPACE) && v != "" && Single(w + v)
    ensures '\n' !in w
  {
    hide Classify;
    if '\n' in w { SecondLine(w, v); }
  }

  /** The white space after a value may be replaced by a newline. */
  lemma TrailingSpace(v: string, w: string)
    requires AllIn(w, SPACE) && v != "" && v[|v| - 1] !in SPACE && Single(v + w)
    ensures Single(v + LF)
  {
    hide Classify, Lines, After, TrimRight;
    TrimRightSkips(v, w, SPACE);
    TrimRightSkips(v, "", SPACE);
    assert v + "" == v;
    TrimmedItself(v);
    TrimScan(v + w, LF, NEUTRAL);
    var ls, t := Scan(v + w), Scan(v + LF);
    forall i | 1 <= i < |t| ensures !t[i].structural {
      if i == |t| - 1 { assert SameInk(t[i], ls[i]); }
    }
  }

  lemma TrimmedItself(v: string)
    requires v != "" && v[|v| - 1] !in SPACE
    ensures TrimRight(v, SPACE) == v
  {
  }

  /** Whatever value an assignment has, it can be written again under the same name. */
  lemma EntryWritable(text: string, n: string)
    requires text != "" && Single(text) && Scan(text) != [] && KeyAt(Scan(text)[0]) == Some(n) && '{' !in n
    ensures PlainName(n) && Writable(n, ValueOf(text))
  {
    hide Trim, KeyAt, ValueOf, Single, PlainName, Writable;
    var p, x := KeyParts(text, n);
    var v := ValueOf(text);
    TrimTwice(x);
    if v == "" {
      NewlineSingle();
      assert v + LF == LF;
    } else {
      var left, right := TrimParts(x, SPACE);
      assert x == left + v + right && x != "";
      PrefixSingle(p, x);
      SeqAssoc(left, v, right);
      assert (v + right)[0] == v[0];
      LeadingSpace(left, v + right);
      PrefixSingle(left, v + right);
      TrailingSpace(v, right);
    }
    SingleWritable(n, v);
  }

  lemma TrimTwice(x: string)
    ensures Trim(Trim(x, SPACE), SPACE) == Trim(x, SPACE)
  {
    hide Trim;
    var v := Trim(x, SPACE);
    TrimUnique("", v, "", SPACE);
    assert "" + v + "" == v;
  }

  lemma NewlineSingle()
    ensures Single(LF)
  {
    hide Classify;
    SpacesKeep(LF, NEUTRAL);
    assert First(LF, '\n') == 0;
    SingleLine(LF, NEUTRAL);
  }

  // ----- rewriting twice

  /** First f, and then g on what f made of it. */
  function Then(f: Rule, g: Rule): Rule {
    (n, v) =>
      match f(n, v)
      case None => g(n, v)
      case Some(w) => (match g(n, w) case None => Some(w) case Some(x) => Some(x))
  }

  /** Everything f writes into the assignments ps reads back. */
  predicate WritesBack(ps: seq<(string, string)>, f: Rule) {
    forall i :: 0 <= i < |ps| && f(ps[i].0, ps[i].1).Some? ==> Writable(ps[i].0, f(ps[i].0, ps[i].1).value)
  }

  function After1(f: Rule, p: (string, string)): (string, string) {
    match f(p.0, p.1)
    case None => p
    case Some(v) => (p.0, v)
  }

  /** The settings after a rewrite. */
  function Mapped(ps: seq<(string, string)>, f: Rule): seq<(string, string)> {
    seq(|ps|, i requires 0 <= i < |ps| => After1(f, ps[i]))
  }

  /** Closed text is its first entry, on its own, and the rest. */
  lemma FirstEntry(b: string) returns (t: string, rest: string)
    requires b != "" && Closed(b)
    ensures Scan(b) != [] && b == t + rest && t != "" && (rest == "" || Whole(t)) && Closed(rest)
    ensures Scan(t) == Scan(b)[..LogicalEnd(Scan(b), 0)] && Scan(rest) == Scan(b)[LogicalEnd(Scan(b), 0)..]
    ensures Single(t) && |rest| < |b|
  {
    hide Classify, Advance;
    var ls := Scan(b);
    var e := LogicalEnd(ls, 0);
    EndFacts(ls, 0);
    t, rest := Cut(b, NEUTRAL, e);
    if e == |ls| {
      NoLines(rest, After(t, NEUTRAL));
    }
    assert Scan(t) == ls[..e];
  }

  lemma NoLines(s: string, st: State)
    requires Lines(s, st) == []
    ensures s == "" && After(s, st) == st
  {
  }

  /** One entry, with whatever follows it. */
  lemma EntryFirst(t: string, ls: seq<Line>, g: Rule)
    requires t != "" && Single(t) && (ls == [] || ls[0].structural)
    ensures Scan(t) != [] && RewriteText(Scan(t) + ls, g) == RewriteEntry(Scan(t), g) + RewriteText(ls, g)
    ensures Settings(Scan(t) + ls) == FirstSetting(Scan(t)) + Settings(ls)
    ensures FirstSetting(Scan(t)) == match KeyAt(Scan(t)[0]) { case None => [] case Some(k) => [(k, ValueOf(t))] }
  {
    hide Classify, KeyAt, ValueOf, RewriteEntry, Lines;
    var e := Scan(t);
    LinesSpell(t, NEUTRAL);
    NotEmpty(t);
    AllContinue(e[1..]);
    assert LogicalEnd(e, 0) == |e|;
    FirstAppend(e, ls);
    TakeConcat(e, ls, |e|);
    assert (e + ls)[|e|..] == ls && (e + ls)[..|e|] == e && e[..|e|] == e;
  }

  lemma NotEmpty(t: string)
    requires t != ""
    ensures Scan(t) != [] && Scan(t)[0].structural
  {
    hide Classify;
  }

  /** What a rewritten entry is, and what a second rewrite makes of it. */
  lemma EntryTwice(t: string, f: Rule, g: Rule)
    requires t != "" && Single(t) && Scan(t) != [] && WritesBack(FirstSetting(Scan(t)), f)
    requires FirstSetting(Scan(t)) == match KeyAt(Scan(t)[0]) { case None => [] case Some(k) => [(k, ValueOf(t))] }
    ensures var r := RewriteEntry(Scan(t), f);
            && r != "" && Single(r) && (r == t || Whole(r)) && Scan(r) != []
            && RewriteEntry(Scan(r), g) == RewriteEntry(Scan(t), Then(f, g))
            && FirstSetting(Scan(r)) == Mapped(FirstSetting(Scan(t)), f)
  {
    hide Classify, KeyAt, ValueOf, Lines, Single;
    LinesSpell(t, NEUTRAL);
    match KeyAt(Scan(t)[0]) {
      case None =>
        assert RewriteEntry(Scan(t), f) == t;
      case Some(k) =>
        var v := ValueOf(t);
        match f(k, v) {
          case None => assert RewriteEntry(Scan(t), f) == t;
          case Some(w) =>
            var r := Rewritten(k, w);
            assert FirstSetting(Scan(t))[0] == (k, v);
            assert Writable(k, w);
            LinesSpell(r, NEUTRAL);
            NotEmpty(r);
            EntryFirst(r, [], g);
        }
    }
  }

  /**
   * Rewriting composes: over closed text, a second rewrite of a rewritten text is one rewrite of the text itself, and
   * the rewritten text is closed with the rewritten settings in the same order.
   */
  lemma {:induction false} RewriteTwice(b: string, f: Rule, g: Rule)
    requires Closed(b) && WritesBack(Settings(Scan(b)), f)
    ensures var out := RewriteText(Scan(b), f);
            && Closed(out) && (out == "" <==> b == "")
            && RewriteText(Scan(out), g) == RewriteText(Scan(b), Then(f, g))
            && Settings(Scan(out)) == Mapped(Settings(Scan(b)), f)
    decreases |b|
  {
    hide Classify, KeyAt, ValueOf, Lines, Single, RewriteText, RewriteEntry, Settings, FirstSetting, Then;
    if b == "" {
      NothingToRewrite(f, g);
    } else {
      var t, rest := FirstEntry(b);
      assert Scan(b) == Scan(t) + Scan(rest);
      RestStructural(rest);
      EntryFirst(t, Scan(rest), f);
      EntryFirst(t, Scan(rest), Then(f, g));
      PartsWriteBack(FirstSetting(Scan(t)), Settings(Scan(rest)), f);
      EntryTwice(t, f, g);
      RewriteTwice(rest, f, g);
      var r, out := RewriteEntry(Scan(t), f), RewriteText(Scan(rest), f);
      JoinClosed(r, t, out, rest);
      RestStructural(out);
      EntryFirst(r, Scan(out), g);
    }
  }

  lemma NothingToRewrite(f: Rule, g: Rule)
    ensures RewriteText(Scan(""), f) == "" && RewriteText(Scan(""), g) == RewriteText(Scan(""), Then(f, g))
    ensures Settings(Scan("")) == [] && Mapped([], f) == [] && Closed("")
  {
  }

  lemma RestStructural(s: string)
    ensures Scan(s) == [] || Scan(s)[0].structural
  {
    hide Classify;
  }

  lemma PartsWriteBack(a: seq<(string, string)>, b: seq<(string, string)>, f: Rule)
    requires WritesBack(a + b, f)
    ensures WritesBack(a, f) && WritesBack(b, f) && Mapped(a + b, f) == Mapped(a, f) + Mapped(b, f)
  {
    hide Writable;
    var all := a + b;
    assert forall i :: 0 <= i < |a| ==> all[i] == a[i];
    assert forall i :: 0 <= i < |b| ==> all[|a| + i] == b[i];
  }

  lemma JoinClosed(r: string, t: string, out: string, rest: string)
    requires r != "" && Single(r) && (r == t || Whole(r)) && (rest == "" || Whole(t)) && (out == "" <==> rest == "")
    requires Closed(out)
    ensures Closed(r + out) && r + out != "" && Scan(r + out) == Scan(r) + Scan(out)
  {
    hide Classify, Lines;
    if out == "" {
      assert r + out == r;
      NoText();
    } else {
      LinesCompose(r, out, NEUTRAL);
    }
  }

  lemma NoText()
    ensures Scan("") == []
  {
  }

  /** Rules that agree on what is assigned rewrite alike. */
  lemma {:induction false} RewriteAlike(ls: seq<Line>, f: Rule, g: Rule)
    requires forall i :: 0 <= i < |Settings(ls)| ==>
               f(Settings(ls)[i].0, Settings(ls)[i].1) == g(Settings(ls)[i].0, Settings(ls)[i].1)
    ensures RewriteText(ls, f) == RewriteText(ls, g)
    decreases |ls|
  {
    hide Classify, KeyAt, ValueOf;
    if ls != [] {
      var n := LogicalEnd(ls, 0);
      var a, b := FirstSetting(ls), Settings(ls[n..]);
      assert Settings(ls) == a + b;
      assert forall i :: 0 <= i < |b| ==> Settings(ls)[|a| + i] == b[i];
      RewriteAlike(ls[n..], f, g);
      if KeyAt(ls[0]).Some? {
        assert ls[..n][0] == ls[0];
        assert Settings(ls)[0] == a[0];
      }
    }
  }

  // ----- the laws

  /** Assignments whose value the mask hides. */
  predicate Hidden(n: string, v: string) {
    MaskRule(n, v).Some?
  }

  /** No name opens an inline table, which no TOML key does. */
  predicate PlainNames(ps: seq<(string, string)>) {
    forall i :: 0 <= i < |ps| ==> '{' !in ps[i].0
  }

  predicate Rewritable(ps: seq<(string, string)>) {
    forall i :: 0 <= i < |ps| ==> PlainName(ps[i].0) && Writable(ps[i].0, ps[i].1)
  }

  /** Every assignment of closed text can be written again. */
  lemma {:induction false} AllRewritable(b: string)
    requires Closed(b) && PlainNames(Settings(Scan(b)))
    ensures Rewritable(Settings(Scan(b)))
    decreases |b|
  {
    hide Classify, KeyAt, ValueOf, Lines, Single, Settings, FirstSetting, PlainName, Writable, RewriteText,
      RewriteEntry;
    if b == "" {
      NothingToRewrite(MaskRule, MaskRule);
    } else {
      var t, rest := FirstEntry(b);
      assert Scan(b) == Scan(t) + Scan(rest);
      RestStructural(rest);
      EntryFirst(t, Scan(rest), MaskRule);
      var a, c := FirstSetting(Scan(t)), Settings(Scan(rest));
      PlainParts(a, c);
      AllRewritable(rest);
      if KeyAt(Scan(t)[0]).Some? {
        assert a[0].0 == KeyAt(Scan(t)[0]).value;
        EntryWritable(t, a[0].0);
      }
    }
  }

  lemma PlainParts(a: seq<(string, string)>, c: seq<(string, string)>)
    ensures PlainNames(a + c) <==> PlainNames(a) && PlainNames(c)
    ensures Rewritable(a + c) <==> Rewritable(a) && Rewritable(c)
  {
    hide PlainName, Writable;
    assert forall i :: 0 <= i < |a| ==> (a + c)[i] == a[i];
    assert forall i :: 0 <= i < |c| ==> (a + c)[|a| + i] == c[i];
  }

  lemma MaskWritesBack(ps: seq<(string, string)>)
    requires Rewritable(ps)
    ensures WritesBack(ps, MaskRule)
  {
    hide Secretish, Writable, PlainName;
    forall i | 0 <= i < |ps| && MaskRule(ps[i].0, ps[i].1).Some? ensures Writable(ps[i].0, MASKED_SECRET) {
      MaskWritable(ps[i].0);
    }
  }

  /** Masking is idempotent, for closed bodies with multi-line and literal strings and with repeated keys alike. */
  lemma MaskIdempotent(b: string)
    requires Closed(b) && PlainNames(Settings(Scan(b)))
    ensures Masked(Masked(b)) == Masked(b)
  {
    hide Classify, Lines, Settings, RewriteText, Secretish, Rewritable, QuotedValue;
    AllRewritable(b);
    MaskWritesBack(Settings(Scan(b)));
    RewriteTwice(b, MaskRule, MaskRule);
    MaskOnce();
    RewriteAlike(Scan(b), Then(MaskRule, MaskRule), MaskRule);
  }

  lemma MaskOnce()
    ensures forall n, v :: Then(MaskRule, MaskRule)(n, v) == MaskRule(n, v)
  {
    hide Secretish, QuotedValue;
  }

  // ----- there and back

  /** The value a name ends up with. */
  lemma {:induction false} OriginalsHas(ps: seq<(string, string)>)
    ensures forall i :: 0 <= i < |ps| ==> ps[i].0 in Originals(ps)
    ensures forall n :: n in Originals(ps) ==> exists i :: 0 <= i < |ps| && ps[i] == (n, Originals(ps)[n])
  {
    if ps != [] {
      var k := |ps| - 1;
      OriginalsHas(ps[..k]);
      forall n | n in Originals(ps) ensures exists i :: 0 <= i < |ps| && ps[i] == (n, Originals(ps)[n]) {
        if n == ps[k].0 {
          assert ps[k] == (n, Originals(ps)[n]);
        } else {
          var i :| 0 <= i < k && ps[..k][i] == (n, Originals(ps[..k])[n]);
          assert ps[i] == (n, Originals(ps)[n]);
        }
      }
    }
  }

  /** What a mask and an unmask come to: hidden and mask-valued assignments get the value their name ends up with. */
  function Restored(originals: map<string, string>): Rule {
    (n, v) => if (Hidden(n, v) || v == MASKED_SECRET) && n in originals then Some(originals[n]) else None
  }

  /** No name ends up with another value than a hidden assignment of it has. */
  predicate LastValues(ps: seq<(string, string)>) {
    forall i :: 0 <= i < |ps| && (Hidden(ps[i].0, ps[i].1) || ps[i].1 == MASKED_SECRET) ==>
      ps[i].0 in Originals(ps) && Originals(ps)[ps[i].0] == ps[i].1
  }

  lemma ThereAndBack(ps: seq<(string, string)>)
    requires Rewritable(ps)
    ensures var o := Originals(ps);
            && WritesBack(ps, Restored(o))
            && !Orphaned(Mapped(ps, MaskRule), o)
            && (forall i :: 0 <= i < |ps| ==>
                  Then(MaskRule, UnmaskRule(o))(ps[i].0, ps[i].1) == Restored(o)(ps[i].0, ps[i].1))
            && (Mapped(ps, Restored(o)) == ps <==> LastValues(ps))
  {
    hide Secretish, QuotedValue, Writable, PlainName, Originals, WritesBack, Mapped, Rewritable, LastValues;
    RestoredWrites(ps);
    NothingOrphaned(ps);
    RestoredSettings(ps);
    OriginalsHas(ps);
    forall i | 0 <= i < |ps|
      ensures Then(MaskRule, UnmaskRule(Originals(ps)))(ps[i].0, ps[i].1) == Restored(Originals(ps))(ps[i].0, ps[i].1) {
      MaskThenUnmask(Originals(ps), ps[i].0, ps[i].1);
    }
  }

  lemma MaskThenUnmask(o: map<string, string>, n: string, v: string)
    requires Hidden(n, v) ==> n in o
    ensures Then(MaskRule, UnmaskRule(o))(n, v) == Restored(o)(n, v)
  {
    hide Secretish, QuotedValue;
  }

  lemma RestoredWrites(ps: seq<(string, string)>)
    requires Rewritable(ps)
    ensures WritesBack(ps, Restored(Originals(ps)))
  {
    hide Secretish, QuotedValue, Writable, PlainName, Originals;
    OriginalsHas(ps);
    var o := Originals(ps);
    forall i | 0 <= i < |ps| && Restored(o)(ps[i].0, ps[i].1).Some? ensures Writable(ps[i].0, o[ps[i].0]) {
      var j :| 0 <= j < |ps| && ps[j] == (ps[i].0, o[ps[i].0]);
    }
  }

  lemma NothingOrphaned(ps: seq<(string, string)>)
    ensures !Orphaned(Mapped(ps, MaskRule), Originals(ps))
  {
    hide Secretish, QuotedValue, Originals;
    OriginalsHas(ps);
  }

  /** What was restored is what was there exactly where the value its name ends up with is its own. */
  lemma RestoredSettings(ps: seq<(string, string)>)
    ensures Mapped(ps, Restored(Originals(ps))) == ps <==> LastValues(ps)
  {
    hide Secretish, QuotedValue, Originals, MaskRule;
    OriginalsHas(ps);
    var o := Originals(ps);
    var r := Mapped(ps, Restored(o));
    forall i | 0 <= i < |ps|
      ensures r[i] == ps[i] <==> ((Hidden(ps[i].0, ps[i].1) || ps[i].1 == MASKED_SECRET) ==> o[ps[i].0] == ps[i].1) {
      assert r[i] == After1(Restored(o), ps[i]);
    }
    if r == ps { assert forall i :: 0 <= i < |ps| ==> r[i] == ps[i]; }
  }

  /**
   * The mask round trip: unmasking the masked text against the original gives back the original with every hidden
   * assignment rewritten as `name = value` on the value its name ends up with and every other byte unchanged. Its
   * settings are those of the original if and only if no hidden assignment is overridden by a later one of its name.
   */
  lemma MaskRoundTrip(b: string)
    requires Closed(b) && PlainNames(Settings(Scan(b)))
    ensures var ps := Settings(Scan(b));
            var t := RewriteText(Scan(b), Restored(Originals(ps)));
            && Unmasked(Masked(b), b) == Some(t) && Closed(t)
            && (Settings(Scan(t)) == ps <==> LastValues(ps))
  {
    hide Classify, Lines, Settings, RewriteText, Rewritable, WritesBack, Originals, Restored, Then, Mapped, Orphaned;
    var ps := Settings(Scan(b));
    var o := Originals(ps);
    AllRewritable(b);
    MaskWritesBack(ps);
    ThereAndBack(ps);
    RewriteTwice(b, MaskRule, UnmaskRule(o));
    RewriteTwice(b, Restored(o), MaskRule);
    RewriteAlike(Scan(b), Then(MaskRule, UnmaskRule(o)), Restored(o));
  }

  predicate UniqueNames(ps: seq<(string, string)>) {
    forall i, j :: 0 <= i < j < |ps| ==> ps[i].0 != ps[j].0
  }

  /** With unique keys, as TOML requires, nothing is overridden. */
  lemma UniqueKeysRestore(ps: seq<(string, string)>)
    requires UniqueNames(ps)
    ensures LastValues(ps)
  {
    hide Secretish, QuotedValue, Originals;
    OriginalsHas(ps);
    forall i | 0 <= i < |ps| ensures Originals(ps)[ps[i].0] == ps[i].1 {
      var j :| 0 <= j < |ps| && ps[j] == (ps[i].0, Originals(ps)[ps[i].0]);
    }
  }
}
