/**
 * Saving a settings form: the header check, the unmasking and the replacement of the body, one after the other, and
 * what they come to for a form that was sent back as it was shown.
 */
module Saving {
  import opened Wrappers
  import opened Text
  import opened Quotes
  import opened Headers
  import opened Lexer
  import opened Tables
  import opened Edits
  import opened Assigns
  import opened SetKeys
  import opened Blocks
  import opened Masking
  import opened MaskRound
  import opened Extents

  /** The body with a line end, unless there is nothing in it. */
  function WithEnd(t: string): string {
    if !IsVoid(t) && !HasSuffix(t, LF) then t + LF else t
  }

  /** The file after a save, or None where it is refused. */
  function Saved(src: string, id: string, submitted: string): Option<string> {
    var body := Normalise(submitted, DominantEol(src));
    if !NoHeader(Scan(body)) then None
    else
      match Body(src, id)
      case Err(_) => None
      case Ok(original) =>
        match Unmasked(body, original)
        case None => None
        case Some(t) =>
          match ReplacedBody(src, id, WithEnd(t))
          case Err(_) => None
          case Ok(out) => Some(out)
  }

  method SaveSettings(src: string, id: string, submitted: string) returns (r: Option<string>)
    ensures r == Saved(src, id, submitted)
  {
    hide Classify, NoHeader, Unmasked, Normalise, DominantEol, IsVoid;
    var body := Normalise(submitted, DominantEol(src));
    var headed := HasTableHeader(body);
    if headed {
      return None;
    }
    var original := BodyText(src, id);
    if original.Err? {
      return None;
    }
    var t := UnmaskSecrets(body, original.value);
    if t.None? {
      return None;
    }
    body := t.value;
    if !IsVoid(body) && !HasSuffix(body, LF) { body := body + LF; }
    var out := ReplaceBody(src, id, body);
    r := if out.Ok? then Some(out.value) else None;
  }

  /**
   * A save is refused exactly if the text holds a table header, wherever a line of it can be one, if there is no such
   * table to edit, or if it leaves bullets under a name that has no value on disk.
   */
  lemma SaveRefused(src: string, id: string, submitted: string)
    ensures var body := Normalise(submitted, DominantEol(src));
            Saved(src, id, submitted).None? <==>
              || (exists i :: 0 <= i < |Scan(body)| && Scan(body)[i].structural && Scan(body)[i].kind.Header?)
              || Body(src, id).Err?
              || Unmasked(body, Body(src, id).value).None?
  {
    hide Classify, Lines, Unmasked, Normalise, DominantEol;
    BodyIs(src, id);
  }

  /** An accepted save replaces the table's body, and no other text, by the unmasked text on whole lines. */
  lemma SavedKeeps(src: string, id: string, submitted: string) returns (i: nat, h: nat, e: nat, t: string)
    requires Saved(src, id, submitted).Some?
    ensures IsTable(Scan(src), id, i, h, e)
    ensures var ls, eol := Scan(src), DominantEol(src);
            var before, body, after := Concat(ls[..h + 1]), Concat(ls[h + 1..e]), Concat(ls[e..]);
            && src == before + body + after && Unmasked(Normalise(submitted, eol), body) == Some(t)
            && Saved(src, id, submitted) ==
               Some(before
                    + Normalise(if AllWhite(t) || (t != "" && t[|t| - 1] == '\n') then t else t + "\n", eol)
                    + after)
  {
    hide Classify, Lines, Unmasked, Normalise, DominantEol, IsTable, Concat, IsVoid, AllWhite, ReplacedBody, NoHeader;
    hide Body;
    t := Unmasked(Normalise(submitted, DominantEol(src)), Body(src, id).value).value;
    i, h, e := ReplaceKeeps(src, id, WithEnd(t));
    LastIs(t);
    VoidIsWhite(t);
  }

  lemma LastIs(t: string)
    ensures HasSuffix(t, LF) <==> t != "" && t[|t| - 1] == '\n'
  {
    if t != "" { assert t[|t| - 1..] == [t[|t| - 1]]; }
  }

  // ----- carriage returns

  predicate NoCr(s: string) {
    '\r' !in s
  }

  lemma NoCrParts(a: string, b: string)
    ensures NoCr(a + b) <==> NoCr(a) && NoCr(b)
  {
    if NoCr(a + b) {
      assert forall i :: 0 <= i < |a| ==> (a + b)[i] == a[i];
      assert forall i :: 0 <= i < |b| ==> (a + b)[|a| + i] == b[i];
    }
  }

  lemma TrimNoCr(s: string, cut: set<char>)
    requires NoCr(s)
    ensures NoCr(Trim(s, cut))
  {
    var left, right := TrimParts(s, cut);
    NoCrParts(left + Trim(s, cut), right);
    NoCrParts(left, Trim(s, cut));
  }

  lemma KeyNoCr(raw: string)
    requires NoCr(raw)
    ensures KeyOf(raw).Some? ==> NoCr(KeyOf(raw).value)
  {
    hide Trim, First;
    TrimNoCr(raw[..First(raw, '=')], BLANK);
  }

  lemma ValueNoCr(text: string)
    requires NoCr(text)
    ensures NoCr(ValueOf(text))
  {
    hide Trim, First;
    TrimNoCr(Drop(text, First(text, '=') + 1), SPACE);
  }

  predicate PairsNoCr(ps: seq<(string, string)>) {
    forall i :: 0 <= i < |ps| ==> NoCr(ps[i].0) && NoCr(ps[i].1)
  }

  lemma {:induction false} SettingsNoCr(ls: seq<Line>)
    requires NoCr(Concat(ls))
    ensures PairsNoCr(Settings(ls))
    decreases |ls|
  {
    hide Classify, KeyOf, ValueOf, Concat;
    if ls != [] {
      var n := LogicalEnd(ls, 0);
      HeadNoCr(ls, n);
      SettingsNoCr(ls[n..]);
      KeyNoCr(ls[0].raw);
      ValueNoCr(Concat(ls[..n]));
    }
  }

  lemma HeadNoCr(ls: seq<Line>, n: nat)
    requires 0 < n <= |ls| && NoCr(Concat(ls))
    ensures NoCr(Concat(ls[..n])) && NoCr(Concat(ls[n..])) && NoCr(ls[0].raw)
  {
    assert ls == ls[..n] + ls[n..];
    ConcatAppend(ls[..n], ls[n..]);
    NoCrParts(Concat(ls[..n]), Concat(ls[n..]));
    NoCrParts(ls[0].raw, Concat(ls[1..]));
  }

  /** What a rule writes into the assignments ps has no carriage return. */
  ghost predicate WritesNoCr(f: Rule) {
    forall n, v :: f(n, v).Some? ==> NoCr(f(n, v).value)
  }

  lemma {:induction false} RewriteNoCr(ls: seq<Line>, f: Rule)
    requires NoCr(Concat(ls)) && WritesNoCr(f)
    ensures NoCr(RewriteText(ls, f))
    decreases |ls|
  {
    hide Classify, KeyOf, ValueOf, Concat;
    if ls != [] {
      var n := LogicalEnd(ls, 0);
      HeadNoCr(ls, n);
      RewriteNoCr(ls[n..], f);
      EntryNoCr(ls[..n], f);
      NoCrParts(RewriteEntry(ls[..n], f), RewriteText(ls[n..], f));
    }
  }

  lemma EntryNoCr(e: seq<Line>, f: Rule)
    requires e != [] && NoCr(Concat(e)) && WritesNoCr(f)
    ensures NoCr(RewriteEntry(e, f))
  {
    hide Classify, KeyOf, ValueOf, Concat;
    HeadNoCr(e, |e|);
    KeyNoCr(e[0].raw);
    if KeyAt(e[0]).Some? {
      var k, w := KeyAt(e[0]).value, f(KeyAt(e[0]).value, ValueOf(Concat(e)));
      if w.Some? {
        assert NoCr(" = ") && NoCr(LF);
        NoCrParts(k + " = " + w.value, LF);
        NoCrParts(k + " = ", w.value);
        NoCrParts(k, " = ");
      }
    }
  }

  // ----- headers and line ends

  /** Rewriting assignments makes no header, and leaves whole lines whole. */
  lemma {:induction false} RewriteKeeps(b: string, f: Rule)
    requires Closed(b) && WritesBack(Settings(Scan(b)), f) && NoHeader(Scan(b)) && Whole(b)
    ensures var out := RewriteText(Scan(b), f); NoHeader(Scan(out)) && Whole(out)
    decreases |b|
  {
    hide Classify, KeyAt, ValueOf, Lines, Single, RewriteText, RewriteEntry, Settings, FirstSetting, IsHeader;
    if b == "" {
      NothingToRewrite(f, f);
    } else {
      var t, rest := FirstEntry(b);
      assert Scan(b) == Scan(t) + Scan(rest);
      RestStructural(rest);
      EntryFirst(t, Scan(rest), f);
      PartsWriteBack(FirstSetting(Scan(t)), Settings(Scan(rest)), f);
      EntryTwice(t, f, f);
      RewriteTwice(rest, f, f);
      WholeParts(t, rest);
      NoHeaderParts(Scan(t), Scan(rest));
      RewriteKeeps(rest, f);
      var r, out := RewriteEntry(Scan(t), f), RewriteText(Scan(rest), f);
      JoinClosed(r, t, out, rest);
      EntryNoHeader(t, r, f);
      NoHeaderParts(Scan(r), Scan(out));
      WholeAppend(r, out);
    }
  }

  lemma WholeParts(t: string, rest: string)
    requires Whole(t + rest) && (rest == "" || Whole(t))
    ensures Whole(t) && Whole(rest)
  {
    if rest == "" {
      assert t + rest == t;
    } else {
      assert (t + rest)[|t + rest| - 1] == rest[|rest| - 1];
    }
  }

  lemma NoHeaderParts(a: seq<Line>, b: seq<Line>)
    ensures NoHeader(a + b) <==> NoHeader(a) && NoHeader(b)
  {
    hide IsHeader;
    assert forall i :: 0 <= i < |a| ==> (a + b)[i] == a[i];
    assert forall i :: 0 <= i < |b| ==> (a + b)[|a| + i] == b[i];
  }

  lemma EntryNoHeader(t: string, r: string, f: Rule)
    requires t != "" && Scan(t) != [] && NoHeader(Scan(t)) && r == RewriteEntry(Scan(t), f) && Single(r)
    requires Scan(r) != []
    requires FirstSetting(Scan(r)) == Mapped(FirstSetting(Scan(t)), f)
    ensures NoHeader(Scan(r))
  {
    hide Classify, KeyOf, ValueOf, Lines;
    LinesSpell(t, NEUTRAL);
    if r != t {
      assert KeyAt(Scan(t)[0]).Some?;
      assert |FirstSetting(Scan(t))| == 1;
      assert KeyAt(Scan(r)[0]).Some?;
    }
  }

  lemma {:induction false} ThereFromCrlf(m: string)
    requires NoCr(m)
    ensures CrlfToLf(LfToCrlf(m)) == m
  {
    if m != "" {
      var c := LfToCrlf(m);
      assert m[0] in m;
      ThereFromCrlf(m[1..]);
      if m[0] == '\n' {
        assert c[2..] == LfToCrlf(m[1..]);
      } else {
        assert c[1..] == LfToCrlf(m[1..]) && c[0] == m[0];
      }
      assert m == [m[0]] + m[1..];
    }
  }

  /** A form field is submitted with CRLF; in a file of bare newlines that is undone. */
  lemma FromBrowser(m: string)
    requires NoCr(m)
    ensures Normalise(LfToCrlf(m), LF) == m && Normalise(m, LF) == m
  {
    ThereFromCrlf(m);
    CrlfToLfKeeps(m);
  }

  /** What is cut back at the end of a body assigns nothing. */
  lemma TrimBodySettings(t: string)
    ensures Settings(Scan(TrimBody(t))) == Settings(Scan(t))
  {
    hide Classify, KeyOf, ValueOf, Keep, Lines, Settings;
    var ls := Scan(t);
    var k := Keep(ls);
    CutTexts(t, k);
    KeepLeavesTrailing(ls);
    var rest := ls[k..];
    assert rest != [] ==> IsFiller(rest[0]);
    SettingsAppend(ls[..k], rest);
    SettingsOfFiller(rest);
    assert ls == ls[..k] + rest && Settings(ls[..k]) + [] == Settings(ls[..k]);
  }

  lemma BodyNoCr(src: string, id: string, b: string)
    requires NoCr(src) && Body(src, id) == Ok(b)
    ensures NoCr(b) && DominantEol(src) == LF
  {
    hide Classify, Keep, FindHeader, Lines, CountLf;
    BodyIs(src, id);
    var at := Locate(Scan(src), id).value;
    FileParts(src, at.head + 1, at.end);
    NoCrParts(Concat(Scan(src)[..at.head + 1]) + b, Concat(Scan(src)[at.end..]));
    NoCrParts(Concat(Scan(src)[..at.head + 1]), b);
    NoCrCounts(src);
  }

  lemma MaskNoCr()
    ensures WritesNoCr(MaskRule)
  {
  }

  lemma RestoredNoCr(ps: seq<(string, string)>)
    requires PairsNoCr(ps)
    ensures WritesNoCr(Restored(Originals(ps)))
  {
    hide Secretish, QuotedValue, Originals;
    OriginalsHas(ps);
    forall n, v | Restored(Originals(ps))(n, v).Some? ensures NoCr(Restored(Originals(ps))(n, v).value) {
      var i :| 0 <= i < |ps| && ps[i] == (n, Originals(ps)[n]);
    }
  }

  /** The body that an untouched form comes to: whole lines without headers or carriage returns. */
  lemma UntouchedBody(b: string)
    requires Closed(b) && Whole(b) && NoCr(b) && NoHeader(Scan(b)) && PlainNames(Settings(Scan(b)))
    ensures NoCr(Masked(b)) && NoHeader(Scan(Masked(b)))
    ensures var t := RewriteText(Scan(b), Restored(Originals(Settings(Scan(b)))));
            NoCr(t) && Whole(t) && NoHeader(Scan(t)) && WithEnd(t) == t
  {
    hide Classify, Lines, Settings, RewriteText, Rewritable, WritesBack, Originals, Restored, NoHeader, WritesNoCr,
      PairsNoCr;
    var ps := Settings(Scan(b));
    LinesSpell(b, NEUTRAL);
    AllRewritable(b);
    MaskWritesBack(ps);
    RewriteKeeps(b, MaskRule);
    MaskNoCr();
    RewriteNoCr(Scan(b), MaskRule);
    RestoredWrites(ps);
    RewriteKeeps(b, Restored(Originals(ps)));
    SettingsNoCr(Scan(b));
    RestoredNoCr(ps);
    RewriteNoCr(Scan(b), Restored(Originals(ps)));
  }

  /**
   * Saving a settings form that was not touched: in a file of bare newlines the form, sent back as a browser sends it,
   * is accepted; the tables and every other table's body stay; and the table's settings are what they were if and only
   * if no hidden assignment is overridden by a later one of its name.
   */
  lemma UntouchedSave(src: string, id: string, b: string)
    requires OpenForEdit(src, id) && NoCr(src) && Body(src, id) == Ok(b)
    requires Closed(b) && Whole(b) && PlainNames(Settings(Scan(b)))
    ensures var r := Saved(src, id, LfToCrlf(Masked(b)));
            && r.Some? && Ids(Scan(r.value)) == Ids(Scan(src)) && Body(r.value, id).Ok?
            && (forall other :: other != id ==> Body(r.value, other) == Body(src, other))
            && (Settings(Scan(Body(r.value, id).value)) == Settings(Scan(b)) <==> LastValues(Settings(Scan(b))))
  {
    hide Classify, Lines, Settings, RewriteText, LastValues, Originals, Restored, Keep, FindHeader, LfToCrlf, Normalise;
    hide NoHeader, Masked, Unmasked, DominantEol;
    var t := RewriteText(Scan(b), Restored(Originals(Settings(Scan(b)))));
    BodyNoCr(src, id, b);
    BodyHeaderless(src, id, b);
    UntouchedBody(b);
    MaskRoundTrip(b);
    FromBrowser(Masked(b));
    FromBrowser(t);
    ReplaceBodyLaws(src, id, t);
    TrimBodySettings(t);
  }

  lemma BodyHeaderless(src: string, id: string, b: string)
    requires OpenForEdit(src, id) && Body(src, id) == Ok(b)
    ensures NoHeader(Scan(b))
  {
    hide Classify, Keep, FindHeader, Lines;
    BodyIs(src, id);
    KeptBody(src, id);
    var at := Locate(Scan(src), id).value;
    BodyRemovable(src, id);
    PartStandsAlone(src, at.head + 1, at.end);
  }
}
