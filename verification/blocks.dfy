/** Adding a table at the end of a file and taking one out. */
module Blocks {
  import opened Wrappers
  import opened Text
  import opened Quotes
  import opened Headers
  import opened Lexer
  import opened Tables
  import opened Edits
  import opened Assigns

  // ----- the code

  /** The white space of Go's bytes.TrimSpace. */
  predicate IsUnicodeSpace(c: char) {
    '\t' <= c <= '\r' || c == ' ' || c == '\U{85}' || c == '\U{A0}' || c == '\U{1680}' || '\U{2000}' <= c <= '\U{200A}'
    || c == '\U{2028}' || c == '\U{2029}' || c == '\U{202F}' || c == '\U{205F}' || c == '\U{3000}'
  }

  predicate IsVoid(src: string) {
    forall i :: 0 <= i < |src| ==> IsUnicodeSpace(src[i])
  }

  /** The block as it is stored: in the file's line ending and newline-terminated. */
  function StoredBlock(src: string, block: string): string {
    var eol := DominantEol(src);
    var b := Normalise(block, eol);
    if HasSuffix(b, eol) then b else b + eol
  }

  /** AppendBlock. */
  function Appended(src: string, block: string): string {
    var eol := DominantEol(src);
    if IsVoid(src) then StoredBlock(src, block)
    else TrimRight(src, SPACE) + eol + eol + StoredBlock(src, block)
  }

  method AppendBlock(src: string, block: string) returns (out: string)
    ensures out == Appended(src, block)
  {
    hide DominantEol, Normalise, TrimRight;
    var eol := DominantEol(src);
    var stored := Normalise(block, eol);
    if !HasSuffix(stored, eol) {
      stored := stored + eol;
    }
    if IsVoid(src) {
      return stored;
    }
    out := TrimRight(src, SPACE);
    out := out + (eol + eol);
    SeqAssoc(TrimRight(src, SPACE), eol, eol);
    out := out + stored;
  }

  /** The lines RemoveBlock takes out end here: one blank line after the block goes with it. */
  function RemoveEnd(ls: seq<Line>, b: Block): (e: nat)
    requires b.end <= |ls|
    ensures b.end <= e <= |ls|
  {
    if b.end < |ls| && IsBlank(ls[b.end]) then b.end + 1 else b.end
  }

  /** What RemoveBlock returns. */
  function Removed(src: string, id: string): Result<string> {
    match Locate(Scan(src), id)
    case Err(e) => Err(e)
    case Ok(b) =>
      var before, after := Concat(Scan(src)[..b.first]), Concat(Scan(src)[RemoveEnd(Scan(src), b)..]);
      Ok(if after == "" then TrimRight(before, SPACE) + DominantEol(src) else before + after)
  }

  /** The loop that takes the separating blank line along: the line at offset end, if it is blank. */
  method PastBlankAt(src: string, ls: seq<Line>, end: nat, ghost k: nat) returns (past: nat)
    requires ls == Scan(src) && k <= |ls| && end == Offset(ls, k)
    ensures past == Offset(ls, if k < |ls| && IsBlank(ls[k]) then k + 1 else k)
  {
    hide Classify, Lines;
    for i := 0 to |ls|
      invariant i > k ==> !IsBlank(ls[k])
    {
      if Offset(ls, i) == end && IsBlank(ls[i]) {
        OffsetInjective(src, i, k);
        return Offset(ls, i + 1);
      }
    }
    past := end;
  }

  method RemoveBlock(src: string, id: string) returns (r: Result<string>)
    ensures r == Removed(src, id)
  {
    hide Classify, FindHeader, Keep, Lines, TrimRight, Locate, Concat;
    var ls := ScanLines(src);
    var span := SpanRows(ls, id);
    match span
    case Err(e) => r := Err(e);
    case Ok(b) =>
      var start := Offset(ls, b.first);
      var end := PastBlankAt(src, ls, Offset(ls, b.end), b.end);
      Slice(src, b.first, RemoveEnd(ls, b));
      var out := Splice(src, start, end, "");
      CutOut(Concat(ls[..b.first]), Concat(ls[RemoveEnd(ls, b)..]));
      if start >= |out| {
        out := TrimRight(out, SPACE) + DominantEol(src);
      }
      r := Ok(out);
  }

  lemma CutOut(before: string, after: string)
    ensures before + "" + after == before + after && (|before| >= |before + after| <==> after == "")
    ensures after == "" ==> before + after == before
  {
  }

  lemma OffsetInjective(src: string, i: nat, j: nat)
    requires i <= |Scan(src)| && j <= |Scan(src)| && Offset(Scan(src), i) == Offset(Scan(src), j)
    ensures i == j
  {
    hide Classify, Lines;
    var lo, hi := if i <= j then i else j, if i <= j then j else i;
    if lo < hi {
      LineOf(src, lo);
      ConcatNext(Scan(src), lo);
      OffsetMonotone(Scan(src), lo + 1, hi);
    }
  }

  // ----- trimming the end of a text

  lemma TrimRightInk(a: string, b: string)
    requires TrimRight(b, SPACE) != ""
    ensures TrimRight(a + b, SPACE) == a + TrimRight(b, SPACE)
    decreases |b|
  {
    var k := |b| - 1;
    assert (a + b)[|a| + k] == b[k];
    if b[k] in SPACE {
      assert (a + b)[..|a| + k] == a + b[..k];
      TrimRightInk(a, b[..k]);
    }
  }

  lemma TrimRightVoid(s: string)
    requires TrimRight(s, SPACE) == ""
    ensures AllIn(s, SPACE)
  {
  }

  /** White space on its own is blank lines, and they leave the scanner where it was. */
  lemma {:induction false} SpacesScan(w: string, st: State)
    requires AllIn(w, SPACE)
    ensures After(w, st) == st
    ensures st == NEUTRAL ==> forall i :: 0 <= i < |Lines(w, st)| ==> IsBlank(Lines(w, st)[i])
    decreases |w|
  {
    hide Classify;
    if w != "" {
      var n := LineLen(w);
      SpacesKeep(w[..n], st);
      SpacesScan(w[n..], st);
      BlankClassified(w[..n]);
    }
  }

  lemma BlankClassified(raw: string)
    requires AllIn(raw, SPACE)
    ensures Classify(raw) == Blank
  {
    hide Trim, ParsedHeader;
    assert !(BOM <= raw) by {
      assert BOM[0] !in SPACE;
    }
    TrimUnique(raw, "", "", SPACE);
    assert raw + "" + "" == raw;
  }

  /** Lines that differ only in the white space they end in. */
  predicate SameInk(l: Line, l': Line) {
    l.structural == l'.structural && l.kind == l'.kind && TrimRight(l.raw, SPACE) == TrimRight(l'.raw, SPACE)
  }

  lemma ClassifyInk(x: string, w: string, w': string)
    requires x != "" && AllIn(w, SPACE) && AllIn(w', SPACE)
    ensures Classify(x + w) == Classify(x + w')
  {
    hide Trim, ParsedHeader;
    var cut := if BOM <= x then x[|BOM|..] else x;
    assert BOM <= x + w <==> BOM <= x;
    assert BOM <= x + w' <==> BOM <= x;
    assert BOM <= x ==> (x + w)[|BOM|..] == cut + w && (x + w')[|BOM|..] == cut + w';
    TrimTail(cut, w, w');
  }

  lemma TrimTail(x: string, w: string, w': string)
    requires AllIn(w, SPACE) && AllIn(w', SPACE)
    ensures Trim(x + w, SPACE) == Trim(x + w', SPACE)
  {
    var left, right := TrimParts(x, SPACE);
    var m := Trim(x, SPACE);
    TrimUnique(left, m, right + w, SPACE);
    TrimUnique(left, m, right + w', SPACE);
    SeqAssoc(left + m, right, w);
    SeqAssoc(left + m, right, w');
  }

  /** ls without its blank last lines, and with other white space at the end of its last line of text. */
  predicate TrimmedTo(ls: seq<Line>, t: seq<Line>) {
    && 0 < |t| <= |ls|
    && (forall i :: 0 <= i < |t| - 1 ==> t[i] == ls[i])
    && SameInk(t[|t| - 1], ls[|t| - 1])
    && (forall i :: |t| <= i < |ls| ==> IsBlank(ls[i]))
  }

  /**
   * Cutting the white space at the end of a closed text, up to a newline, leaves it closed with the same lines of text.
   */
  lemma {:induction false} TrimScan(s: string, eol: string, st: State)
    requires TrimRight(s, SPACE) != "" && After(s, st) == NEUTRAL && (eol == LF || eol == CRLF)
    ensures var t := TrimRight(s, SPACE) + eol;
            After(t, st) == NEUTRAL && Whole(t) && TrimmedTo(Lines(s, st), Lines(t, st))
    decreases |s|
  {
    hide Classify, Advance, TrimRight, SameInk, IsBlank;
    var n := LineLen(s);
    var raw, rest := s[..n], s[n..];
    var x := TrimRight(s, SPACE);
    SplitAtFirstLine(s);
    PrependLine(raw, rest, st);
    if TrimRight(rest, SPACE) != "" {
      var y := TrimRight(rest, SPACE);
      TrimRightInk(raw, rest);
      TrimScan(rest, eol, Advance(raw, st));
      SeqAssoc(raw, y, eol);
      PrependLine(raw, y + eol, st);
      TrimmedUnder(MkLine(raw, st), Lines(rest, Advance(raw, st)), Lines(y + eol, Advance(raw, st)));
      WholeAppend(raw, y + eol);
    } else {
      TrimRightVoid(rest);
      TrimLastLine(raw, rest, eol, st);
    }
  }

  lemma TrimmedUnder(l: Line, ls: seq<Line>, t: seq<Line>)
    requires TrimmedTo(ls, t)
    ensures TrimmedTo([l] + ls, [l] + t)
  {
    hide Classify, IsBlank, SameInk;
    var ls', t' := [l] + ls, [l] + t;
    assert forall i :: 1 <= i < |t'| ==> t'[i] == t[i - 1];
    assert forall i :: 1 <= i < |ls'| ==> ls'[i] == ls[i - 1];
  }

  lemma TrimLastLine(raw: string, rest: string, eol: string, st: State)
    requires raw != "" && LineLen(raw) == |raw| && AllIn(rest, SPACE) && (eol == LF || eol == CRLF)
    requires Lines(raw + rest, st) == [MkLine(raw, st)] + Lines(rest, Advance(raw, st))
    requires TrimRight(raw + rest, SPACE) != "" && After(raw + rest, st) == NEUTRAL
    requires After(raw + rest, st) == After(rest, Advance(raw, st))
    ensures var t := TrimRight(raw + rest, SPACE) + eol;
            After(t, st) == NEUTRAL && Whole(t) && TrimmedTo(Lines(raw + rest, st), Lines(t, st))
  {
    hide Classify, Advance, IsBlank, TrimRight;
    TrimRightSkips(raw, rest, SPACE);
    var x := TrimRight(raw, SPACE);
    var w := raw[|x|..];
    assert raw == x + w;
    InkHasNoNewline(raw);
    TailKeeps(x, w, eol, st);
    ClassifyInk(x, w, eol);
    EndLine(x, eol, st);
    SpacesScan(rest, Advance(raw, st));
    TrimRightSkips(x, w, SPACE);
    TrimRightSkips(x, eol, SPACE);
    var ls, t := Lines(raw + rest, st), Lines(x + eol, st);
    assert t == [MkLine(x + eol, st)];
    assert SameInk(t[0], ls[0]);
    assert forall i :: 1 <= i < |ls| ==> ls[i] == Lines(rest, NEUTRAL)[i - 1];
  }

  lemma InkHasNoNewline(raw: string)
    requires raw != "" && LineLen(raw) == |raw|
    ensures '\n' !in TrimRight(raw, SPACE)
  {
    var x := TrimRight(raw, SPACE);
    assert forall i :: 0 <= i < |x| ==> x[i] == raw[i];
    assert x != "" ==> x[|x| - 1] !in SPACE;
  }

  lemma EndLine(x: string, eol: string, st: State)
    requires x != "" && '\n' !in x && (eol == LF || eol == CRLF)
    ensures Lines(x + eol, st) == [MkLine(x + eol, st)] && After(x + eol, st) == Advance(x + eol, st) && Whole(x + eol)
  {
    hide Classify, Advance;
    var raw := x + eol;
    assert raw[|raw| - 1] == '\n';
    assert forall i :: 0 <= i < |x| ==> raw[i] == x[i];
    assert First(raw, '\n') == |raw| - 1;
    SingleLine(raw, st);
  }

  // ----- what trimming the end of a file keeps

  lemma {:induction false} IdsOfFiller(t: seq<Line>)
    requires AllFiller(t)
    ensures Ids(t) == [] && NoHeader(t)
  {
    hide Classify;
    assert forall i :: 0 <= i < |t| ==> IsFiller(t[i]) && !IsHeader(t[i]);
    IdsNoHeader(t);
  }

  lemma IdsTrimmed(ls: seq<Line>, t: seq<Line>)
    requires TrimmedTo(ls, t)
    ensures Ids(t) == Ids(ls)
  {
    hide Classify;
    var k := |t| - 1;
    assert AllFiller(ls[k + 1..]);
    assert t == ls[..k] + [t[k]] && ls == ls[..k] + [ls[k]] + ls[k + 1..];
    hide TrimmedTo, IsFiller, IsBlank;
    IdsAppend(ls[..k], [t[k]]);
    IdsAppend(ls[..k] + [ls[k]], ls[k + 1..]);
    IdsAppend(ls[..k], [ls[k]]);
    IdsOfFiller(ls[k + 1..]);
    assert [t[k]][1..] == [] && [ls[k]][1..] == [];
  }

  // ----- the laws of AppendBlock

  /**
   * A block that adds a table: a comment run, a header and a body that ends in neither blank lines nor loose comments.
   */
  predicate OneTable(block: seq<Line>, h: nat, id: string) {
    && h < |block| && (forall i :: 0 <= i < h ==> IsComment(block[i]))
    && IsHeader(block[h]) && block[h].kind == Header(id, true)
    && NoHeader(block[h + 1..]) && Keep(block[h + 1..]) == |block| - h - 1
  }

  predicate HasInk(src: string) {
    TrimRight(src, SPACE) != "" && !IsVoid(src)
  }

  /** The lines of the extended file: the old lines of text, one blank line, the block. */
  lemma AppendScans(src: string, block: string) returns (old': seq<Line>, gap: Line)
    requires HasInk(src) && Closed(src)
    ensures old' == Scan(TrimRight(src, SPACE) + DominantEol(src)) && TrimmedTo(Scan(src), old')
    ensures IsBlank(gap) && gap.raw == DominantEol(src)
    ensures Concat(old' + [gap]) == TrimRight(src, SPACE) + DominantEol(src) + DominantEol(src)
    ensures Scan(Appended(src, block)) == old' + [gap] + Scan(StoredBlock(src, block))
  {
    hide Classify, Lines, StoredBlock, IsVoid;
    var eol := DominantEol(src);
    var x := TrimRight(src, SPACE);
    TrimScan(src, eol, NEUTRAL);
    old' := Scan(x + eol);
    gap := MkLine(eol, NEUTRAL);
    GapLine(eol);
    LinesCompose(x + eol, eol, NEUTRAL);
    WholeAppend(x + eol, eol);
    LinesCompose(x + eol + eol, StoredBlock(src, block), NEUTRAL);
    LinesSpell(x + eol + eol, NEUTRAL);
  }

  lemma GapLine(eol: string)
    requires eol == LF || eol == CRLF
    ensures Lines(eol, NEUTRAL) == [MkLine(eol, NEUTRAL)] && Closed(eol) && Whole(eol) && IsBlank(MkLine(eol, NEUTRAL))
  {
    hide Classify;
    BlankClassified(eol);
    assert First(eol, '\n') == |eol| - 1;
    SingleLine(eol, NEUTRAL);
    SpacesKeep(eol, NEUTRAL);
  }

  /** AppendBlock adds the block's tables after the old ones. */
  lemma AppendIds(src: string, block: string)
    requires HasInk(src) && Closed(src)
    ensures Ids(Scan(Appended(src, block))) == Ids(Scan(src)) + Ids(Scan(StoredBlock(src, block)))
  {
    hide Classify, Lines, Appended, StoredBlock;
    var old', gap := AppendScans(src, block);
    IdsTrimmed(Scan(src), old');
    IdsAppend(old' + [gap], Scan(StoredBlock(src, block)));
    IdsAppend(old', [gap]);
    IdsOfFiller([gap]);
  }

  /** Taking the new table out again gives back the old text, up to the white space at its end. */
  lemma AppendThenRemove(src: string, block: string, h: nat, id: string)
    requires HasInk(src) && Closed(src)
    requires FindHeader(Scan(src), id) == |Scan(src)|
    requires OneTable(Scan(StoredBlock(src, block)), h, id)
    ensures Removed(Appended(src, block), id) == Ok(TrimRight(src, SPACE) + DominantEol(Appended(src, block)))
  {
    hide Classify, Lines, Appended, StoredBlock, Keep, FindHeader, IsVoid;
    var old', gap := AppendScans(src, block);
    var out, new' := Appended(src, block), Scan(StoredBlock(src, block));
    FreshTrimmed(Scan(src), old', id);
    LocateAppended(old', gap, new', h, id);
    var x, eol := TrimRight(src, SPACE), DominantEol(src);
    assert Scan(out)[..|old'| + 1] == old' + [gap];
    assert Scan(out)[|Scan(out)|..] == [];
    TrimRightSkips(x + eol, eol, SPACE);
    TrimRightSkips(x, eol, SPACE);
    TrimRightTwice(src);
  }

  lemma TrimRightTwice(s: string)
    ensures TrimRight(TrimRight(s, SPACE), SPACE) == TrimRight(s, SPACE)
  {
  }

  lemma FreshTrimmed(ls: seq<Line>, t: seq<Line>, id: string)
    requires TrimmedTo(ls, t) && FindHeader(ls, id) == |ls|
    ensures forall i :: 0 <= i < |t| ==> !(IsHeader(t[i]) && t[i].kind.id == id)
  {
    hide Classify;
    assert forall i :: 0 <= i < |t| ==> !(IsHeader(ls[i]) && ls[i].kind.id == id);
  }

  lemma LocateAppended(old': seq<Line>, gap: Line, block: seq<Line>, h: nat, id: string)
    requires IsBlank(gap) && OneTable(block, h, id)
    requires forall i :: 0 <= i < |old'| ==> !(IsHeader(old'[i]) && old'[i].kind.id == id)
    ensures var ls := old' + [gap] + block;
            Locate(ls, id) == Ok(Block(|old'| + 1, |old'| + 1 + h, |ls|))
  {
    hide Classify, Keep, FindHeader, NextHeader, RunStart;
    var p := old' + [gap];
    var ls := p + block;
    assert ls[|p|..] == block;
    DropDrop(ls, |p|, |p| + h + 1);
    AppendedHead(old', gap, block, h, id);
    OwnsNoHeader(block[h + 1..], id);
    NextHeaderOf(block[h + 1..]);
    assert block[h + 1..][..|block| - h - 1] == block[h + 1..];
  }

  lemma AppendedHead(old': seq<Line>, gap: Line, block: seq<Line>, h: nat, id: string)
    requires IsBlank(gap) && OneTable(block, h, id)
    requires forall i :: 0 <= i < |old'| ==> !(IsHeader(old'[i]) && old'[i].kind.id == id)
    ensures var ls := old' + [gap] + block;
            && FindHeader(ls, id) == |old'| + 1 + h && ls[|old'| + 1 + h] == block[h]
            && RunStart(ls, |old'| + 1 + h) == |old'| + 1
  {
    hide FindHeader, RunStart, OneTable, IsBlank, IsHeader;
    AppendedHeader(old', gap, block, h, id);
    AppendedRun(old', gap, block, h, id);
  }

  lemma AppendedHeader(old': seq<Line>, gap: Line, block: seq<Line>, h: nat, id: string)
    requires IsBlank(gap) && OneTable(block, h, id)
    requires forall i :: 0 <= i < |old'| ==> !(IsHeader(old'[i]) && old'[i].kind.id == id)
    ensures var ls := old' + [gap] + block; FindHeader(ls, id) == |old'| + 1 + h && ls[|old'| + 1 + h] == block[h]
  {
    hide Classify, Keep, FindHeader, Ids, NoHeader;
    Indexes(old', gap, block);
    FindHeaderIs(old' + [gap] + block, id, |old'| + 1 + h);
  }

  lemma AppendedRun(old': seq<Line>, gap: Line, block: seq<Line>, h: nat, id: string)
    requires IsBlank(gap) && OneTable(block, h, id)
    ensures RunStart(old' + [gap] + block, |old'| + 1 + h) == |old'| + 1
  {
    hide Classify, Keep, RunStart, Ids, NoHeader;
    Indexes(old', gap, block);
    RunStartIs(old' + [gap] + block, |old'| + 1 + h, |old'| + 1);
  }

  lemma FindHeaderIs(ls: seq<Line>, id: string, h: nat)
    requires h < |ls| && forall i :: 0 <= i < h ==> !(IsHeader(ls[i]) && ls[i].kind.id == id)
    requires IsHeader(ls[h]) && ls[h].kind.id == id
    ensures FindHeader(ls, id) == h
  {
    hide Classify;
  }

  lemma RunStartIs(ls: seq<Line>, h: nat, first: nat)
    requires first <= h <= |ls| && forall i :: first <= i < h ==> IsComment(ls[i])
    requires first > 0 ==> !IsComment(ls[first - 1])
    ensures RunStart(ls, h) == first
  {
    hide Classify;
  }

  lemma {:induction false} OnlyCrlfPrefix(s: string, k: nat)
    requires OnlyCrlf(s) && k <= |s| && (k > 0 ==> s[k - 1] != '\r')
    ensures OnlyCrlf(s[..k])
    decreases |s|
  {
    if k == 0 {
    } else if CRLF <= s {
      OnlyCrlfPrefix(s[2..], k - 2);
      assert s[..k] == CRLF + s[2..][..k - 2];
      assert s[..k][2..] == s[2..][..k - 2];
    } else {
      OnlyCrlfPrefix(s[1..], k - 1);
      assert s[..k][1..] == s[1..][..k - 1];
    }
  }

  lemma {:induction false} OnlyCrlfAppend(a: string, b: string)
    requires OnlyCrlf(a) && OnlyCrlf(b)
    ensures OnlyCrlf(a + b)
  {
    if a == "" {
      assert a + b == b;
    } else if CRLF <= a {
      OnlyCrlfAppend(a[2..], b);
      assert (a + b)[2..] == a[2..] + b;
    } else {
      OnlyCrlfAppend(a[1..], b);
      assert (a + b)[1..] == a[1..] + b && (a + b)[0] == a[0];
    }
  }

  /** A file with one consistent line ending keeps it when a block is added. */
  lemma AppendKeepsEol(src: string, block: string)
    requires HasInk(src)
    requires '\r' !in src || (OnlyCrlf(src) && DominantEol(src) == CRLF)
    ensures DominantEol(Appended(src, block)) == DominantEol(src)
  {
    hide TrimRight, IsVoid, StoredBlock, CountCrlf, CountLf, OnlyCrlf;
    var x, b := TrimRight(src, SPACE), StoredBlock(src, block);
    if '\r' !in src {
      NoCrCounts(src);
      StoredNoCr(src, block);
      assert '\r' !in x + LF + LF + b;
      NoCrCounts(x + LF + LF + b);
    } else {
      StoredOnlyCrlf(src, block);
      OnlyCrlfPrefix(src, |x|);
      CrlfParts(x, b);
    }
  }

  lemma StoredNoCr(src: string, block: string)
    requires DominantEol(src) == LF
    ensures '\r' !in StoredBlock(src, block)
  {
    hide CountCrlf, CountLf;
  }

  lemma CrlfParts(x: string, b: string)
    requires OnlyCrlf(x) && OnlyCrlf(b)
    ensures DominantEol(x + CRLF + CRLF + b) == CRLF
  {
    hide OnlyCrlf, CountCrlf, CountLf;
    OneCrlf();
    var y := CRLF + (CRLF + b);
    assert x + CRLF + CRLF + b == x + y;
    OnlyCrlfAppend(CRLF, b);
    OnlyCrlfAppend(CRLF, CRLF + b);
    OnlyCrlfAppend(x, y);
    CountsAppendCrlf(x, y);
    CountsAppendCrlf(CRLF, CRLF + b);
    OnlyCrlfCounts(x + y);
  }

  lemma OneCrlf()
    ensures OnlyCrlf(CRLF) && CountCrlf(CRLF) == 1
  {
    assert CRLF[2..] == "";
  }

  lemma StoredOnlyCrlf(src: string, block: string)
    requires DominantEol(src) == CRLF
    ensures OnlyCrlf(StoredBlock(src, block))
  {
    hide CountCrlf, CountLf;
    var lf := CrToLf(CrlfToLf(block));
    LfToCrlfOnlyCrlf(lf);
    OnlyCrlfAppend(LfToCrlf(lf), CRLF);
  }

  // ----- the laws of RemoveBlock

  /** A table's settings, read off its lines in the file; for a table open for edit, the settings of its Body. */
  function TableSettings(ls: seq<Line>, id: string): Result<seq<(string, string)>> {
    match BodyLines(ls, id)
    case Err(e) => Err(e)
    case Ok(body) => Ok(Settings(body))
  }

  lemma TableSettingsOfBody(src: string, id: string, body: string)
    requires OpenForEdit(src, id) && Body(src, id) == Ok(body)
    ensures TableSettings(Scan(src), id) == Ok(Settings(Scan(body)))
  {
    hide Classify, Settings, Keep, FindHeader, Lines;
    var b := Locate(Scan(src), id).value;
    BodyLinesLocated(Scan(src), id);
    BodyRemovable(src, id);
    PartStandsAlone(src, b.head + 1, b.end);
  }

  /** TableSettings of the table whose header is hd. */
  function SettingsAt(hd: Line, rest: seq<Line>, id: string): Result<seq<(string, string)>>
    requires IsHeader(hd)
  {
    if !hd.kind.simple || OwnsSubTable(rest, id) then Err(Unsupported) else Ok(Settings(rest[..NextHeader(rest)]))
  }

  lemma SettingsOfKept(region: seq<Line>)
    ensures Settings(region[..Keep(region)]) == Settings(region)
  {
    hide Classify, Settings, Keep;
    var k := Keep(region);
    KeepLeavesTrailing(region);
    SettingsOfFiller(region[k..]);
    assert region == region[..k] + region[k..];
    FirstIsStructural(region[k..]);
    SettingsAppend(region[..k], region[k..]);
  }

  lemma FirstIsStructural(t: seq<Line>)
    requires AllFiller(t)
    ensures t == [] || t[0].structural
  {
    hide Classify;
    if t != [] {
      assert IsFiller(t[0]);
    }
  }

  lemma TableSettingsCons(l: Line, ls: seq<Line>, id: string)
    ensures TableSettings([l] + ls, id) ==
            if IsHeader(l) && l.kind.id == id then SettingsAt(l, ls, id) else TableSettings(ls, id)
  {
    hide Classify, Settings, Keep;
    assert ([l] + ls)[0] == l && ([l] + ls)[1..] == ls;
    SettingsOfKept(ls[..NextHeader(ls)]);
  }

  /** What a removal takes out between p and c: comments, the header of table id, and lines without headers. */
  predicate RemovedLines(m: seq<Line>, h: nat, id: string) {
    h < |m| && AllFiller(m[..h]) && IsHeader(m[h]) && m[h].kind.id == id && NoHeader(m[h + 1..])
  }

  lemma OwnsRemoved(a: seq<Line>, m: seq<Line>, c: seq<Line>, h: nat, id: string, other: string)
    requires RemovedLines(m, h, id) && !(other + "." <= id)
    ensures OwnsSubTable(a + (m + c), other) <==> OwnsSubTable(a + c, other)
  {
    hide Classify;
    OwnsAppend(a, m + c, other);
    OwnsAppend(m, c, other);
    OwnsAppend(a, c, other);
    forall i | 0 <= i < |m| ensures !(IsHeader(m[i]) && other + "." <= m[i].kind.id) {
      if i < h {
        assert m[..h][i] == m[i];
      } else if i > h {
        assert m[h + 1..][i - h - 1] == m[i];
      }
    }
  }

  lemma RegionRemoved(a: seq<Line>, m: seq<Line>, c: seq<Line>, h: nat, id: string)
    requires RemovedLines(m, h, id) && AllFiller(c[..NextHeader(c)])
    ensures Settings((a + (m + c))[..NextHeader(a + (m + c))]) == Settings((a + c)[..NextHeader(a + c)])
  {
    hide Classify, Settings, NextHeader;
    NextHeaderAppend(a, m + c);
    NextHeaderAppend(a, c);
    NextHeaderAppend(m, c);
    NextHeaderRemoved(m, h, id);
    if NextHeader(a) < |a| {
      TakeConcat(a, m + c, NextHeader(a));
      TakeConcat(a, c, NextHeader(a));
    } else {
      TakeConcat(a, m + c, |a| + h);
      TakeConcat(m, c, h);
      TakeConcat(a, c, |a| + NextHeader(c));
      SettingsPlusFiller(a, m[..h]);
      SettingsPlusFiller(a, c[..NextHeader(c)]);
    }
  }

  lemma SettingsPlusFiller(a: seq<Line>, t: seq<Line>)
    requires AllFiller(t)
    ensures Settings(a + t) == Settings(a)
  {
    hide Classify, Settings;
    FirstIsStructural(t);
    SettingsAppend(a, t);
    SettingsOfFiller(t);
  }

  lemma NextHeaderRemoved(m: seq<Line>, h: nat, id: string)
    requires RemovedLines(m, h, id)
    ensures NextHeader(m) == h
  {
    hide Classify;
    var n := NextHeader(m);
    assert forall i :: 0 <= i < n ==> m[..n][i] == m[i];
    assert forall i :: 0 <= i < h ==> m[..h][i] == m[i] && IsFiller(m[i]);
  }

  lemma SettingsSkip(m: seq<Line>, c: seq<Line>, h: nat, id: string, other: string)
    requires RemovedLines(m, h, id) && other != id
    ensures TableSettings(m + c, other) == TableSettings(c, other)
  {
    hide Classify, Settings, BodyLines;
    forall i | 0 <= i < |m| ensures !(IsHeader(m[i]) && m[i].kind.id == other) {
      if i < h {
        assert m[..h][i] == m[i];
      } else if i > h {
        assert m[h + 1..][i - h - 1] == m[i];
      }
    }
    BodyLinesSkip(m, c, other);
  }

  /** Taking the lines out leaves the settings of every other table. */
  lemma {:induction false} SettingsRemoved(p: seq<Line>, m: seq<Line>, c: seq<Line>, h: nat, id: string, other: string)
    requires RemovedLines(m, h, id) && AllFiller(c[..NextHeader(c)]) && other != id && !(other + "." <= id)
    ensures TableSettings(p + (m + c), other) == TableSettings(p + c, other)
  {
    hide Classify, TableSettings, Settings, NextHeader;
    if p == [] {
      assert p + (m + c) == m + c && p + c == c;
      SettingsSkip(m, c, h, id, other);
    } else {
      SettingsRemoved(p[1..], m, c, h, id, other);
      assert p + (m + c) == [p[0]] + (p[1..] + (m + c)) && p + c == [p[0]] + (p[1..] + c);
      TableSettingsCons(p[0], p[1..] + (m + c), other);
      TableSettingsCons(p[0], p[1..] + c, other);
      OwnsRemoved(p[1..], m, c, h, id, other);
      RegionRemoved(p[1..], m, c, h, id);
    }
  }

  // ----- settings and the white space at the end of a file

  lemma FirstPrefix(x: string, w: string)
    requires First(x, '=') < |x|
    ensures First(x + w, '=') == First(x, '=')
  {
    var f := First(x, '=');
    assert (x + w)[f] == '=' && forall i :: 0 <= i < f ==> (x + w)[i] == x[i];
  }

  lemma ValueInk(x: string, w: string, w': string)
    requires First(x, '=') < |x| && AllIn(w, SPACE) && AllIn(w', SPACE)
    ensures ValueOf(x + w) == ValueOf(x + w')
  {
    hide Trim, First, ValueOf;
    var f := First(x, '=');
    AfterEquals(x, w, f);
    AfterEquals(x, w', f);
    TrimTail(x[f + 1..], w, w');
  }

  lemma AfterEquals(x: string, w: string, f: nat)
    requires f < |x| && First(x, '=') == f
    ensures ValueOf(x + w) == Trim(x[f + 1..] + w, SPACE)
  {
    hide Trim, First, Drop;
    FirstPrefix(x, w);
    DropConcat(x, w, f + 1);
    assert First(x + w, '=') + 1 == f + 1;
  }

  lemma FirstAbsent(x: string, w: string)
    requires First(x, '=') == |x| && AllIn(w, SPACE)
    ensures First(x + w, '=') == |x + w|
  {
    assert forall i :: 0 <= i < |x| ==> (x + w)[i] == x[i];
    assert forall i :: 0 <= i < |w| ==> (x + w)[|x| + i] == w[i];
  }

  lemma KeyBefore(x: string, w: string, f: nat)
    requires f < |x| && First(x, '=') == f
    ensures KeyOf(x + w) == KeyOf(x)
  {
    hide Trim, First;
    FirstPrefix(x, w);
    assert (x + w)[..f] == x[..f];
  }

  lemma KeyInk(x: string, w: string, w': string)
    requires AllIn(w, SPACE) && AllIn(w', SPACE)
    ensures KeyOf(x + w) == KeyOf(x + w')
    ensures KeyOf(x + w).Some? ==> First(x, '=') < |x|
  {
    hide Trim, First;
    var f := First(x, '=');
    if f < |x| {
      KeyBefore(x, w, f);
      KeyBefore(x, w', f);
    } else {
      FirstAbsent(x, w);
      FirstAbsent(x, w');
    }
  }

  /** What two lines with the same ink share, spelled out. */
  lemma InkParts(l: Line, l': Line) returns (x: string, w: string, w': string)
    requires SameInk(l, l')
    ensures l.raw == x + w && l'.raw == x + w' && AllIn(w, SPACE) && AllIn(w', SPACE)
  {
    hide Classify;
    x := TrimRight(l.raw, SPACE);
    w, w' := l.raw[|x|..], l'.raw[|x|..];
  }

  lemma SettingsOfOne(l: Line)
    ensures Settings([l]) == match KeyAt(l) { case None => [] case Some(k) => [(k, ValueOf(l.raw))] }
  {
    hide KeyAt, ValueOf;
    assert LogicalEnd([l], 0) == 1 && [l][..1] == [l] && [l][1..] == [];
    assert Concat([l]) == l.raw + Concat([]);
    assert l.raw + "" == l.raw;
  }

  lemma SettingsOneInk(l: Line, l': Line)
    requires SameInk(l, l')
    ensures Settings([l]) == Settings([l'])
  {
    hide Classify, KeyOf, ValueOf, Settings;
    var x, w, w' := InkParts(l, l');
    KeyInk(x, w, w');
    SettingsOfOne(l);
    SettingsOfOne(l');
    if KeyAt(l).Some? {
      ValueInk(x, w, w');
    }
  }

  /** A value's last line may end in other white space. */
  lemma SettingsOfWholeEntry(e: seq<Line>, l: Line, l': Line)
    requires e != [] && LogicalEnd(e, 0) == |e| && SameInk(l, l') && !l.structural
    ensures Settings(e + [l]) == Settings(e + [l'])
  {
    hide Classify, ValueOf, KeyOf, TrimRight;
    ContinuedEntry(e, l);
    ContinuedEntry(e, l');
    if KeyAt(e[0]).Some? {
      var x, w, w' := InkParts(l, l');
      KeyHasEquals(e[0]);
      assert Concat(e) == e[0].raw + Concat(e[1..]);
      FirstPrefix(e[0].raw, Concat(e[1..]));
      FirstPrefix(Concat(e), x);
      SeqAssoc(Concat(e), x, w);
      SeqAssoc(Concat(e), x, w');
      ValueInk(Concat(e) + x, w, w');
    }
  }

  lemma KeyHasEquals(l: Line)
    requires KeyAt(l).Some?
    ensures First(l.raw, '=') < |l.raw|
  {
    hide Trim, First;
  }

  lemma ContinuedEntry(e: seq<Line>, l: Line)
    requires e != [] && LogicalEnd(e, 0) == |e| && !l.structural
    ensures Settings(e + [l]) == match KeyAt(e[0]) { case None => [] case Some(k) => [(k, ValueOf(Concat(e) + l.raw))] }
  {
    hide Classify, KeyAt, ValueOf, Settings;
    var n := e + [l];
    EndFacts(e, 0);
    assert forall k :: 0 < k < |n| ==> !n[k].structural;
    AllContinue(n[1..]);
    OneEntry(n);
    ConcatAppend(e, [l]);
    assert Concat([l]) == l.raw + Concat([]);
    assert l.raw + "" == l.raw;
  }

  lemma OneEntry(e: seq<Line>)
    requires e != [] && LogicalEnd(e, 0) == |e|
    ensures Settings(e) == match KeyAt(e[0]) { case None => [] case Some(k) => [(k, ValueOf(Concat(e)))] }
  {
    hide Classify, KeyAt, ValueOf, Concat;
    assert e[..|e|] == e && e[|e|..] == [];
  }

  lemma {:induction false} SettingsLastInk(q: seq<Line>, l: Line, l': Line)
    requires SameInk(l, l')
    ensures Settings(q + [l]) == Settings(q + [l'])
    decreases |q|
  {
    hide Classify, KeyAt, ValueOf, Settings, SameInk;
    if q == [] {
      assert q + [l] == [l] && q + [l'] == [l'];
      SettingsOneInk(l, l');
    } else if l.structural {
      InkStructure(l, l');
      SettingsAppend(q, [l]);
      SettingsAppend(q, [l']);
      SettingsOneInk(l, l');
    } else {
      InkStructure(l, l');
      var n := LogicalEnd(q, 0);
      if n == |q| {
        SettingsOfWholeEntry(q, l, l');
      } else {
        EndFacts(q, 0);
        SettingsLastInk(q[n..], l, l');
        SettingsAppend(q[..n], q[n..] + [l]);
        SettingsAppend(q[..n], q[n..] + [l']);
        assert q[..n] + (q[n..] + [l]) == q + [l] && q[..n] + (q[n..] + [l']) == q + [l'];
      }
    }
  }

  lemma InkStructure(l: Line, l': Line)
    requires SameInk(l, l')
    ensures l.structural == l'.structural && l.kind == l'.kind
  {
    hide Classify, TrimRight;
  }

  lemma RegionLast(q: seq<Line>, l: Line, l': Line, blanks: seq<Line>)
    requires SameInk(l, l') && forall i :: 0 <= i < |blanks| ==> IsBlank(blanks[i])
    ensures var r, r' := q + ([l] + blanks), q + [l'];
            Settings(r[..NextHeader(r)]) == Settings(r'[..NextHeader(r')])
  {
    hide Classify, Settings, SameInk;
    InkStructure(l, l');
    NextHeaderAppend(q, [l] + blanks);
    NextHeaderAppend(q, [l']);
    NextHeaderOf(blanks);
    assert ([l] + blanks)[1..] == blanks && [l'][1..] == [];
    var r, r' := q + ([l] + blanks), q + [l'];
    if NextHeader(q) < |q| {
      TakeConcat(q, [l] + blanks, NextHeader(q));
      TakeConcat(q, [l'], NextHeader(q));
    } else if IsHeader(l) {
      TakeConcat(q, [l] + blanks, |q|);
      TakeConcat(q, [l'], |q|);
    } else {
      assert r[..NextHeader(r)] == r && r'[..NextHeader(r')] == r';
      assert r == (q + [l]) + blanks;
      SettingsPlusFiller(q + [l], blanks);
      SettingsLastInk(q, l, l');
    }
  }

  lemma OwnsLast(q: seq<Line>, l: Line, l': Line, blanks: seq<Line>, id: string)
    requires SameInk(l, l') && NoHeader(blanks)
    ensures OwnsSubTable(q + ([l] + blanks), id) <==> OwnsSubTable(q + [l'], id)
  {
    hide Classify, TrimRight;
    OwnsAppend(q, [l] + blanks, id);
    OwnsAppend([l], blanks, id);
    OwnsAppend(q, [l'], id);
    OwnsNoHeader(blanks, id);
    assert [l][0] == l && [l'][0] == l';
  }

  /** Cutting the white space at the end of the file leaves every table's settings. */
  lemma {:induction false} SettingsTrimmed(q: seq<Line>, l: Line, l': Line, blanks: seq<Line>, id: string)
    requires SameInk(l, l') && forall i :: 0 <= i < |blanks| ==> IsBlank(blanks[i])
    ensures TableSettings(q + ([l] + blanks), id) == TableSettings(q + [l'], id)
  {
    hide Classify, TableSettings, Settings, NextHeader, SameInk;
    InkStructure(l, l');
    if q == [] {
      assert q + ([l] + blanks) == [l] + blanks && q + [l'] == [l'] + [];
      TableSettingsCons(l, blanks, id);
      TableSettingsCons(l', [], id);
      SettingsOfBlanks(l, l', blanks, id);
    } else {
      SettingsTrimmed(q[1..], l, l', blanks, id);
      assert q + ([l] + blanks) == [q[0]] + (q[1..] + ([l] + blanks)) && q + [l'] == [q[0]] + (q[1..] + [l']);
      TableSettingsCons(q[0], q[1..] + ([l] + blanks), id);
      TableSettingsCons(q[0], q[1..] + [l'], id);
      OwnsLast(q[1..], l, l', blanks, id);
      RegionLast(q[1..], l, l', blanks);
    }
  }

  lemma SettingsOfBlanks(l: Line, l': Line, blanks: seq<Line>, id: string)
    requires l.kind == l'.kind && l.structural == l'.structural && forall i :: 0 <= i < |blanks| ==> IsBlank(blanks[i])
    ensures TableSettings(blanks, id) == TableSettings([], id) == Err(NotFound)
    ensures IsHeader(l) ==> SettingsAt(l, blanks, id) == SettingsAt(l', [], id)
  {
    hide Classify, Settings;
    assert blanks + [] == blanks;
    BodyLinesSkip(blanks, [], id);
    OwnsNoHeader(blanks, id);
    NextHeaderOf(blanks);
    SettingsOfFiller(blanks);
    SettingsOfFiller([]);
    assert blanks[..|blanks|] == blanks;
  }

  // ----- RemoveBlock

  /** The lines RemoveBlock takes out are comments, the header, its body, and at most one blank line. */
  lemma RemovedAre(ls: seq<Line>, id: string)
    requires Locate(ls, id).Ok?
    ensures var b := Locate(ls, id).value;
            var e := RemoveEnd(ls, b);
            && RemovedLines(ls[b.first..e], b.head - b.first, id)
            && AllFiller(ls[e..][..NextHeader(ls[e..])])
            && ls[b.first].structural && (e < |ls| ==> ls[e].structural)
  {
    hide Classify, Keep, FindHeader;
    var b := Locate(ls, id).value;
    var e := RemoveEnd(ls, b);
    SplitOf(ls, id);
    RunIsFiller(ls, b.head);
    AfterBlock(ls[b.end..], e - b.end);
    DropDrop(ls, b.end, e);
    NoHeaderAround(ls, b.head + 1, b.end, e);
    PartsOfRemoved(ls, b.first, b.head, e, id);
  }

  lemma NoHeaderAround(ls: seq<Line>, i: nat, j: nat, e: nat)
    requires i <= j <= e <= |ls| && NoHeader(ls[i..j]) && NoHeader(ls[j..e])
    ensures NoHeader(ls[i..e])
  {
    hide Classify;
    assert forall k :: i <= k < j ==> ls[k] == ls[i..j][k - i];
    assert forall k :: j <= k < e ==> ls[k] == ls[j..e][k - j];
  }

  lemma PartsOfRemoved(ls: seq<Line>, first: nat, h: nat, e: nat, id: string)
    requires first <= h < e <= |ls| && AllFiller(ls[first..h]) && IsHeader(ls[h]) && ls[h].kind.id == id
    requires NoHeader(ls[h + 1..e])
    ensures RemovedLines(ls[first..e], h - first, id)
  {
    hide Classify;
    var m := ls[first..e];
    assert m[..h - first] == ls[first..h] && m[h - first] == ls[h] && m[h - first + 1..] == ls[h + 1..e];
  }

  lemma RunIsFiller(ls: seq<Line>, h: nat)
    requires h < |ls| && IsHeader(ls[h])
    ensures AllFiller(ls[BlockAt(ls, h).first..h]) && ls[BlockAt(ls, h).first].structural
  {
    hide Classify, Keep;
  }

  lemma AfterBlock(c: seq<Line>, k: nat)
    requires Trailing(c[..NextHeader(c)]) && k == if c != [] && IsBlank(c[0]) then 1 else 0
    ensures NoHeader(c[..k]) && AllFiller(c[k..][..NextHeader(c[k..])])
    ensures k < |c| ==> c[k].structural
  {
    hide Classify, NextHeader, AllFiller, NoHeader, IsBlank, IsHeader;
    var n := NextHeader(c);
    BlankIsNoHeader(c);
    FillerInside(c, k, n);
    NextHeaderTail(c, k);
    HeaderIsStructural(c);
  }

  lemma BlankIsNoHeader(c: seq<Line>)
    ensures c != [] && IsBlank(c[0]) ==> NextHeader(c) >= 1
  {
    hide Classify;
  }

  lemma HeaderIsStructural(c: seq<Line>)
    ensures NextHeader(c) < |c| ==> c[NextHeader(c)].structural
  {
    hide Classify;
  }

  lemma FillerInside(c: seq<Line>, k: nat, n: nat)
    requires n <= |c| && k <= |c| && AllFiller(c[..n])
    ensures k <= n ==> AllFiller(c[k..][..n - k]) && NoHeader(c[..k])
    ensures k < n ==> c[k].structural
  {
    hide Classify;
    assert forall i :: 0 <= i < n ==> c[..n][i] == c[i] && IsFiller(c[i]);
  }

  /**
   RemoveBlock takes exactly that table out of the list of tables and leaves the names and values assigned in every
   other table as they were, even where it takes a comment out of the previous table's body.
   */
  lemma RemoveBlockLaws(src: string, id: string)
    requires IsBareId(id) && Locate(Scan(src), id).Ok?
    ensures var h := Locate(Scan(src), id).value.head;
            && Ids(Scan(src)) == Ids(Scan(src)[..h]) + [id] + Ids(Scan(src)[h + 1..])
            && Ids(Scan(Removed(src, id).value)) == Ids(Scan(src)[..h]) + Ids(Scan(src)[h + 1..])
    ensures forall other :: other != id ==>
              TableSettings(Scan(Removed(src, id).value), other) == TableSettings(Scan(src), other)
  {
    hide Classify, Locate, Lines, Settings, TableSettings, IsBareId, Removed, RemoveEnd;
    RemovedScans(src, id);
    KeptLists(Scan(src), id);
  }

  lemma KeptLists(ls: seq<Line>, id: string)
    requires IsBareId(id) && Locate(ls, id).Ok?
    ensures var b := Locate(ls, id).value;
            var kept := ls[..b.first] + ls[RemoveEnd(ls, b)..];
            && Ids(ls) == Ids(ls[..b.head]) + [id] + Ids(ls[b.head + 1..])
            && Ids(kept) == Ids(ls[..b.head]) + Ids(ls[b.head + 1..])
            && forall other :: other != id ==> TableSettings(kept, other) == TableSettings(ls, other)
  {
    hide Classify, Keep, FindHeader, Settings, TableSettings, IsBareId, RemoveEnd, Ids, RemovedLines, AllFiller;
    var b := Locate(ls, id).value;
    RemovedAre(ls, id);
    KeptAt(ls, b.first, b.head, RemoveEnd(ls, b), id);
  }

  lemma KeptAt(ls: seq<Line>, first: nat, h: nat, e: nat, id: string)
    requires IsBareId(id) && first <= h < e <= |ls| && ls[h].kind.Header? && ls[h].kind.simple
    requires RemovedLines(ls[first..e], h - first, id) && AllFiller(ls[e..][..NextHeader(ls[e..])])
    ensures Ids(ls) == Ids(ls[..h]) + [id] + Ids(ls[h + 1..])
    ensures Ids(ls[..first] + ls[e..]) == Ids(ls[..h]) + Ids(ls[h + 1..])
    ensures forall other :: other != id ==> TableSettings(ls[..first] + ls[e..], other) == TableSettings(ls, other)
  {
    hide Classify, Settings, TableSettings, IsBareId, Ids, RemovedLines, AllFiller, NextHeader;
    var p, m, c := ls[..first], ls[first..e], ls[e..];
    HeadInside(ls, first, h, e);
    RemovedFromLists(p, m, c, h - first, id);
  }

  /** The file without the block is scanned as its other lines, up to white space at its end. */
  lemma RemovedScans(src: string, id: string)
    requires Locate(Scan(src), id).Ok?
    ensures var b := Locate(Scan(src), id).value;
            var kept := Scan(src)[..b.first] + Scan(src)[RemoveEnd(Scan(src), b)..];
            var out := Scan(Removed(src, id).value);
            Ids(out) == Ids(kept) && forall other :: TableSettings(out, other) == TableSettings(kept, other)
  {
    hide Classify, Keep, FindHeader, Lines, TableSettings, TrimRight;
    var b := Locate(Scan(src), id).value;
    var e := RemoveEnd(Scan(src), b);
    RemovedAre(Scan(src), id);
    StructuralIsNeutral(src, b.first);
    CutTexts(src, b.first);
    RestStandsAlone(src, e);
    JoinScans(Scan(src)[..b.first], Scan(src)[e..], DominantEol(src));
  }

  /** Two runs of lines that stand alone, joined as RemoveBlock joins them. */
  lemma JoinScans(p: seq<Line>, c: seq<Line>, eol: string)
    requires Scan(Concat(p)) == p && Closed(Concat(p)) && Whole(Concat(p)) && Scan(Concat(c)) == c
    requires eol == LF || eol == CRLF
    ensures var out := Scan(if Concat(c) == "" then TrimRight(Concat(p), SPACE) + eol else Concat(p) + Concat(c));
            Ids(out) == Ids(p + c) && forall other :: TableSettings(out, other) == TableSettings(p + c, other)
  {
    hide Classify, TableSettings, TrimRight, Advance;
    if Concat(c) == "" {
      assert c == [] && p + c == p;
      TrimmedFile(Concat(p), eol);
    } else {
      LinesCompose(Concat(p), Concat(c), NEUTRAL);
    }
  }

  lemma HeadInside(ls: seq<Line>, first: nat, h: nat, e: nat)
    requires first <= h < e <= |ls|
    ensures ls[..h] == ls[..first] + ls[first..e][..h - first]
    ensures ls[h + 1..] == ls[first..e][h - first + 1..] + ls[e..]
    ensures ls == ls[..first] + ls[first..e] + ls[e..] && ls[first..e][h - first] == ls[h]
  {
  }

  /** RemoveBlockLaws, on line lists. */
  lemma RemovedFromLists(p: seq<Line>, m: seq<Line>, c: seq<Line>, h: nat, id: string)
    requires RemovedLines(m, h, id) && m[h].kind.simple && AllFiller(c[..NextHeader(c)]) && IsBareId(id)
    ensures Ids(p + m + c) == Ids(p + m[..h]) + [id] + Ids(m[h + 1..] + c)
    ensures Ids(p + c) == Ids(p + m[..h]) + Ids(m[h + 1..] + c)
    ensures forall other :: other != id ==> TableSettings(p + c, other) == TableSettings(p + m + c, other)
  {
    hide Classify, Settings, TableSettings, NextHeader, IsBareId;
    IdsParted(p, m, c, h, id);
    forall other | other != id ensures TableSettings(p + c, other) == TableSettings(p + m + c, other) {
      NotUnder(id, other);
      SettingsRemoved(p, m, c, h, id, other);
      assert p + m + c == p + (m + c);
    }
  }

  lemma IdsParted(p: seq<Line>, m: seq<Line>, c: seq<Line>, h: nat, id: string)
    requires RemovedLines(m, h, id) && m[h].kind.simple
    ensures Ids(p + m + c) == Ids(p + m[..h]) + [id] + Ids(m[h + 1..] + c)
    ensures Ids(p + c) == Ids(p + m[..h]) + Ids(m[h + 1..] + c)
  {
    hide Classify, Ids;
    IdsOfFiller(m[..h]);
    IdsNoHeader(m[h + 1..]);
    IdsAppend(p, m[..h]);
    IdsAppend(m[h + 1..], c);
    IdsAppend(p, c);
    assert p + m + c == (p + m[..h]) + [m[h]] + (m[h + 1..] + c);
    IdsAppend(p + m[..h] + [m[h]], m[h + 1..] + c);
    IdsAppend(p + m[..h], [m[h]]);
    IdsOfHeader(m[h]);
  }

  lemma IdsOfHeader(l: Line)
    requires IsHeader(l) && l.kind.simple
    ensures Ids([l]) == [l.kind.id]
  {
    hide Classify;
    assert [l][1..] == [];
  }

  lemma NotUnder(id: string, other: string)
    requires IsBareId(id)
    ensures !(other + "." <= id)
  {
    if |other| < |id| {
      assert IsBare(id[|other|]);
      assert (other + ".")[|other|] == '.';
    }
  }

  /** A closed text cut back to its last ink, and a newline. */
  lemma TrimmedFile(s: string, eol: string)
    requires Closed(s) && (eol == LF || eol == CRLF)
    ensures var t := TrimRight(s, SPACE) + eol;
            && Ids(Scan(t)) == Ids(Scan(s))
            && forall other :: TableSettings(Scan(t), other) == TableSettings(Scan(s), other)
  {
    hide Classify, Lines, TrimRight, TableSettings, Settings;
    var x := TrimRight(s, SPACE);
    if x == "" {
      TrimRightVoid(s);
      SpacesScan(s, NEUTRAL);
      assert x + eol == eol;
      SpacesScan(eol, NEUTRAL);
      IdsOfFiller(Scan(s));
      IdsOfFiller(Scan(eol));
      forall other ensures TableSettings(Scan(x + eol), other) == TableSettings(Scan(s), other) {
        NoTables(Scan(s), other);
        NoTables(Scan(eol), other);
      }
    } else {
      TrimScan(s, eol, NEUTRAL);
      IdsTrimmed(Scan(s), Scan(x + eol));
      forall other ensures TableSettings(Scan(x + eol), other) == TableSettings(Scan(s), other) {
        TrimmedSettings(Scan(s), Scan(x + eol), other);
      }
    }
  }

  lemma NoTables(ls: seq<Line>, id: string)
    requires forall i :: 0 <= i < |ls| ==> IsBlank(ls[i])
    ensures TableSettings(ls, id) == Err(NotFound)
  {
    hide Classify, Settings;
    assert ls + [] == ls;
    BodyLinesSkip(ls, [], id);
  }

  lemma TrimmedSettings(ls: seq<Line>, t: seq<Line>, id: string)
    requires TrimmedTo(ls, t)
    ensures TableSettings(t, id) == TableSettings(ls, id)
  {
    hide Classify, TableSettings, SameInk;
    var k := |t| - 1;
    assert t == ls[..k] + [t[k]];
    assert ls == ls[..k] + ([ls[k]] + ls[k + 1..]);
    InkSymmetric(t[k], ls[k]);
    SettingsTrimmed(ls[..k], ls[k], t[k], ls[k + 1..], id);
  }

  lemma InkSymmetric(l: Line, l': Line)
    requires SameInk(l, l')
    ensures SameInk(l', l)
  {
    hide Classify, TrimRight;
  }

  /** The header line the dashboard writes opens no string and closes its bracket: its table can be edited. */
  lemma HeaderOpens(id: string, eol: string)
    requires IsBareId(id) && (eol == LF || eol == CRLF)
    ensures var raw := "[" + id + "]" + eol;
            && Whole(raw) && Advance(raw, NEUTRAL) == NEUTRAL && Classify(raw) == Header(id, true)
  {
    hide Classify, Advance;
    var raw := "[" + id + "]" + eol;
    BareHeaderClassified(id, eol);
    AdvanceTop(raw, NEUTRAL);
    assert Drop(raw, 1) == id + ("]" + eol);
    BarePrefix(id, "]" + eol, State(MlNone, 1));
    AdvanceTop("]" + eol, State(MlNone, 1));
    assert Drop("]" + eol, 1) == eol;
    SpacesKeep(eol, NEUTRAL);
  }

  lemma {:induction false} BarePrefix(id: string, rest: string, st: State)
    requires (forall i :: 0 <= i < |id| ==> IsBare(id[i])) && st.ml == MlNone
    ensures Advance(id + rest, st) == Advance(rest, st)
  {
    hide Classify;
    if id == "" {
      assert id + rest == rest;
    } else {
      var s := id + rest;
      assert s[0] == id[0] && IsBare(id[0]) && Drop(s, 1) == id[1..] + rest;
      AdvanceTop(s, st);
      BarePrefix(id[1..], rest, st);
    }
  }
}
