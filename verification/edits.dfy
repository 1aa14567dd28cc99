/**
 Replacing the body of a table.

 The laws rest on Transplant: lines cut out between two places where the scanner is NEUTRAL can be exchanged for any
 closed text, and the file is scanned as the old lines around the new ones.
 */
module Edits {
  import opened Wrappers
  import opened Text
  import opened Headers
  import opened Lexer
  import opened Tables

  // ----- the code

  /** What ReplaceBody returns. */
  function ReplacedBody(src: string, id: string, body: string): Result<string> {
    match Locate(Scan(src), id)
    case Err(e) => Err(e)
    case Ok(b) =>
      Ok(Concat(Scan(src)[..b.head + 1]) + Normalise(body, DominantEol(src)) + Concat(Scan(src)[b.end..]))
  }

  method ReplaceBody(src: string, id: string, body: string) returns (r: Result<string>)
    ensures r == ReplacedBody(src, id, body)
  {
    hide Classify;
    var span := BodySpan(src, id);
    match span
    case Err(e) => r := Err(e);
    case Ok((start, end)) =>
      var normal := Normalise(body, DominantEol(src));
      ghost var b := Locate(Scan(src), id).value;
      Slice(src, b.head + 1, b.end);
      r := Ok(Splice(src, start, end, normal));
  }

  // ----- scanning a splice

  /**
   Splicing text between two line boundaries that are scanned in NEUTRAL splices its lines. The text must be closed and
   whole where anything follows it.
   */
  lemma Transplant(a: string, n: string, c: string)
    requires Whole(a) && After(a, NEUTRAL) == NEUTRAL
    requires c == "" || (Closed(n) && Whole(n))
    ensures Scan(a + n + c) == Scan(a) + Scan(n) + Scan(c)
    ensures After(a + n + c, NEUTRAL) == if c == "" then After(n, NEUTRAL) else After(c, NEUTRAL)
  {
    hide Classify;
    LinesCompose(a, n, NEUTRAL);
    if c == "" {
      assert a + n + c == a + n;
    } else {
      WholeAppend(a, n);
      LinesCompose(a + n, c, NEUTRAL);
    }
  }

  /** Line i of the file is reached in NEUTRAL: the text before it is closed and ends at a line boundary. */
  predicate NeutralAt(src: string, i: nat)
    requires i <= |Scan(src)|
  {
    var before := Concat(Scan(src)[..i]);
    Whole(before) && Closed(before)
  }

  lemma CutTexts(src: string, i: nat)
    requires i <= |Scan(src)|
    ensures Scan(Concat(Scan(src)[..i])) == Scan(src)[..i]
    ensures Lines(Concat(Scan(src)[i..]), After(Concat(Scan(src)[..i]), NEUTRAL)) == Scan(src)[i..]
    ensures i < |Scan(src)| ==> Whole(Concat(Scan(src)[..i]))
    ensures i < |Scan(src)| ==> (Scan(src)[i].structural <==> Closed(Concat(Scan(src)[..i])))
    ensures After(src, NEUTRAL) == After(Concat(Scan(src)[i..]), After(Concat(Scan(src)[..i]), NEUTRAL))
  {
    hide Classify;
    var a, b := Cut(src, NEUTRAL, i);
    LinesSpell(a, NEUTRAL);
    LinesSpell(b, After(a, NEUTRAL));
  }

  /** Every structural line is a place where the file may be cut. */
  lemma StructuralIsNeutral(src: string, i: nat)
    requires i < |Scan(src)| && Scan(src)[i].structural
    ensures NeutralAt(src, i)
    ensures Scan(Concat(Scan(src)[i..])) == Scan(src)[i..]
  {
    hide Classify;
    CutTexts(src, i);
  }

  /** So is the line after a structural one that the scanner leaves in NEUTRAL and that ends in a newline. */
  lemma NextIsNeutral(src: string, i: nat)
    requires i < |Scan(src)| && Scan(src)[i].structural
    requires Whole(Scan(src)[i].raw) && Advance(Scan(src)[i].raw, NEUTRAL) == NEUTRAL
    ensures NeutralAt(src, i + 1)
  {
    hide Classify;
    StructuralIsNeutral(src, i);
    LineOf(src, i);
    ConcatNext(Scan(src), i);
    AfterLine(Concat(Scan(src)[..i]), Scan(src)[i].raw);
  }

  lemma ConcatNext(ls: seq<Line>, i: nat)
    requires i < |ls|
    ensures Concat(ls[..i + 1]) == Concat(ls[..i]) + ls[i].raw
  {
    hide Classify;
    assert ls[..i + 1] == ls[..i] + [ls[i]];
    ConcatAppend(ls[..i], [ls[i]]);
    assert Concat([ls[i]]) == ls[i].raw + Concat([]);
  }

  lemma AfterLine(a: string, raw: string)
    requires Whole(a) && Closed(a)
    requires raw != "" && LineLen(raw) == |raw| && Whole(raw) && Advance(raw, NEUTRAL) == NEUTRAL
    ensures Whole(a + raw) && Closed(a + raw)
  {
    hide Classify;
    LinesCompose(a, raw, NEUTRAL);
    SingleLine(raw, NEUTRAL);
    WholeAppend(a, raw);
  }

  /** Every line of a scan is one physical line. */
  lemma {:induction false} LineShape(s: string, st: State, i: nat)
    requires i < |Lines(s, st)|
    ensures Lines(s, st)[i].raw != "" && LineLen(Lines(s, st)[i].raw) == |Lines(s, st)[i].raw|
    ensures Lines(s, st)[i].kind.Header? ==> Lines(s, st)[i].structural
    ensures Lines(s, st)[i].structural ==> Lines(s, st)[i].kind == Classify(Lines(s, st)[i].raw)
    ensures i + 1 < |Lines(s, st)| ==> Whole(Lines(s, st)[i].raw)
    decreases i
  {
    LinesHead(s, st);
    FirstLine(s);
    var n := LineLen(s);
    if i > 0 {
      LineShape(s[n..], Advance(s[..n], st), i - 1);
    }
  }

  lemma LineOf(src: string, i: nat)
    requires i < |Scan(src)|
    ensures Scan(src)[i].raw != "" && LineLen(Scan(src)[i].raw) == |Scan(src)[i].raw|
    ensures i + 1 < |Scan(src)| ==> Whole(Scan(src)[i].raw)
  {
    hide Classify;
    LineShape(src, NEUTRAL, i);
  }

  // ----- searching a spliced list

  lemma {:induction false} FindHeaderAppend(a: seq<Line>, b: seq<Line>, id: string)
    ensures FindHeader(a + b, id) == if FindHeader(a, id) < |a| then FindHeader(a, id) else |a| + FindHeader(b, id)
  {
    hide Classify;
    if a == [] {
      assert a + b == b;
    } else {
      assert (a + b)[1..] == a[1..] + b && (a + b)[0] == a[0];
      FindHeaderAppend(a[1..], b, id);
    }
  }

  lemma {:induction false} NextHeaderAppend(a: seq<Line>, b: seq<Line>)
    ensures NextHeader(a + b) == if NextHeader(a) < |a| then NextHeader(a) else |a| + NextHeader(b)
  {
    hide Classify;
    if a == [] {
      assert a + b == b;
    } else {
      assert (a + b)[1..] == a[1..] + b && (a + b)[0] == a[0];
      NextHeaderAppend(a[1..], b);
    }
  }

  lemma {:induction false} IdsNoHeader(n: seq<Line>)
    requires NoHeader(n)
    ensures Ids(n) == []
  {
    hide Classify;
    if n != [] {
      assert !IsHeader(n[0]);
      IdsNoHeader(n[1..]);
    }
  }

  lemma OwnsAppend(a: seq<Line>, b: seq<Line>, id: string)
    ensures OwnsSubTable(a + b, id) <==> OwnsSubTable(a, id) || OwnsSubTable(b, id)
  {
    hide Classify;
    assert forall i :: 0 <= i < |a| ==> (a + b)[i] == a[i];
    assert forall i :: 0 <= i < |b| ==> (a + b)[|a| + i] == b[i];
  }

  lemma OwnsNoHeader(n: seq<Line>, id: string)
    requires NoHeader(n)
    ensures !OwnsSubTable(n, id)
  {
  }

  // ----- where a body ends

  /** What Keep leaves out: nothing, or blank lines and comments that start with a blank line. */
  predicate Trailing(t: seq<Line>) {
    AllFiller(t) && (t != [] ==> IsBlank(t[0]))
  }

  lemma KeepLeavesTrailing(region: seq<Line>)
    ensures Trailing(region[Keep(region)..])
  {
    hide Classify;
    var rest := region[ContentLen(region)..];
    FillerTail(rest, FirstBlank(rest));
    DropDrop(region, ContentLen(region), Keep(region));
  }

  lemma FillerTail(ls: seq<Line>, k: nat)
    requires AllFiller(ls) && k <= |ls| && (k < |ls| ==> IsBlank(ls[k]))
    ensures Trailing(ls[k..])
  {
    hide Classify;
    assert forall i :: 0 <= i < |ls[k..]| ==> ls[k..][i] == ls[k + i];
  }

  /** Adding what Keep leaves out changes nothing about what it keeps. */
  lemma KeepIgnoresTrailing(n: seq<Line>, t: seq<Line>)
    requires Trailing(t)
    ensures Keep(n + t) == Keep(n)
  {
    hide Classify, IsFiller;
    ContentIgnoresFiller(n, t);
    var c := ContentLen(n);
    assert (n + t)[c..] == n[c..] + t;
    BlankAppend(n[c..], t);
  }

  lemma {:induction false} ContentIgnoresFiller(n: seq<Line>, t: seq<Line>)
    requires AllFiller(t)
    ensures ContentLen(n + t) == ContentLen(n)
  {
    hide Classify, IsFiller;
    if t == [] {
      assert n + t == n;
    } else {
      var k := |t| - 1;
      assert (n + t)[..|n| + k] == n + t[..k] && (n + t)[|n| + k] == t[k];
      ContentIgnoresFiller(n, t[..k]);
    }
  }

  lemma {:induction false} BlankAppend(a: seq<Line>, t: seq<Line>)
    requires t != [] ==> IsBlank(t[0])
    ensures FirstBlank(a + t) == FirstBlank(a)
  {
    hide Classify, IsBlank;
    if a == [] {
      assert a + t == t;
    } else {
      assert (a + t)[0] == a[0] && (a + t)[1..] == a[1..] + t;
      BlankAppend(a[1..], t);
    }
  }

  // ----- replacing the lines between a header and the end of its body

  /** a ends in the header of table id, b is that table's body and c is the rest of the file. */
  predicate Split(a: seq<Line>, b: seq<Line>, c: seq<Line>, id: string) {
    && SplitAround(a, c, id)
    && NoHeader(b) && Keep(b) == |b|
  }

  predicate SplitAround(a: seq<Line>, c: seq<Line>, id: string) {
    && |a| > 0 && FindHeader(a, id) == |a| - 1 && a[|a| - 1].kind.simple
    && Trailing(c[..NextHeader(c)])
    && !OwnsSubTable(c, id)
  }

  /** What follows a header, cut where Keep says its body ends. */
  lemma RegionFacts(rest: seq<Line>, k: nat)
    requires k == Keep(rest[..NextHeader(rest)])
    ensures NoHeader(rest[..k]) && Keep(rest[..k]) == k
    ensures Trailing(rest[k..][..NextHeader(rest[k..])])
  {
    hide Classify;
    var n := NextHeader(rest);
    TakeTake(rest, k, n);
    KeepLeavesTrailing(rest[..n]);
    KeepIgnoresTrailing(rest[..k], rest[k..][..n - k]);
    NoHeaderPrefix(rest[..n], k);
    NextHeaderTail(rest, k);
  }

  lemma NoHeaderPrefix(ls: seq<Line>, k: nat)
    requires k <= |ls| && NoHeader(ls)
    ensures NoHeader(ls[..k])
  {
  }

  lemma NextHeaderTail(ls: seq<Line>, k: nat)
    requires k <= NextHeader(ls)
    ensures NextHeader(ls[k..]) == NextHeader(ls) - k
  {
    hide Classify;
    if k > 0 {
      NextHeaderTail(ls[1..], k - 1);
      assert ls[1..][k - 1..] == ls[k..];
    }
  }

  lemma FindHeaderPrefix(ls: seq<Line>, id: string)
    requires FindHeader(ls, id) < |ls|
    ensures FindHeader(ls[..FindHeader(ls, id) + 1], id) == FindHeader(ls, id)
  {
    hide Classify;
    var h := FindHeader(ls, id);
    assert ls == ls[..h + 1] + ls[h + 1..];
    FindHeaderAppend(ls[..h + 1], ls[h + 1..], id);
    assert ls[..h + 1][h] == ls[h];
  }

  /** Every located body splits the file. */
  lemma SplitOf(ls: seq<Line>, id: string)
    requires Locate(ls, id).Ok?
    ensures var b := Locate(ls, id).value;
            Split(ls[..b.head + 1], ls[b.head + 1..b.end], ls[b.end..], id)
  {
    hide Classify;
    var b := Locate(ls, id).value;
    var rest := ls[b.head + 1..];
    var k := b.end - b.head - 1;
    RegionFacts(rest, k);
    FindHeaderPrefix(ls, id);
    SplitSlices(ls, b.head + 1, k);
    OwnsTail(rest, k, id);
  }

  lemma SplitSlices(ls: seq<Line>, h: nat, k: nat)
    requires h + k <= |ls|
    ensures ls[h..][..k] == ls[h..h + k] && ls[h..][k..] == ls[h + k..]
    ensures ls == ls[..h] + ls[h..h + k] + ls[h + k..]
    ensures h > 0 ==> ls[..h][h - 1] == ls[h - 1]
  {
  }

  lemma OwnsTail(ls: seq<Line>, k: nat, id: string)
    requires k <= |ls| && !OwnsSubTable(ls, id)
    ensures !OwnsSubTable(ls[k..], id)
  {
    hide Classify;
    assert ls == ls[..k] + ls[k..];
    OwnsAppend(ls[..k], ls[k..], id);
  }

  lemma NextHeaderOf(n: seq<Line>)
    requires NoHeader(n)
    ensures NextHeader(n) == |n|
  {
  }

  /** The table is found in the same place whatever stands between, and its body is what Keep keeps of that. */
  lemma LocateSplit(a: seq<Line>, n: seq<Line>, c: seq<Line>, id: string)
    requires SplitAround(a, c, id) && NoHeader(n)
    ensures Locate(a + n + c, id) == Ok(BlockAt(a + n + c, |a| - 1))
    ensures BlockAt(a + n + c, |a| - 1).end == |a| + Keep(n)
  {
    hide Classify;
    FindReplaced(a, n, c, id);
    RegionReplaced(a, n, c);
  }

  lemma BodySplit(a: seq<Line>, n: seq<Line>, c: seq<Line>, id: string)
    requires SplitAround(a, c, id) && NoHeader(n)
    ensures BodyLines(a + n + c, id) == Ok(n[..Keep(n)])
  {
    hide Classify;
    FindReplaced(a, n, c, id);
    BodyLinesAt(a + n + c, id);
    ConcatAssoc(a, n, c);
    RegionOf(n, c);
  }

  /** The region after a header that n and c follow, and how much of it is body. */
  lemma RegionOf(n: seq<Line>, c: seq<Line>)
    requires NoHeader(n) && Trailing(c[..NextHeader(c)])
    ensures var region := (n + c)[..NextHeader(n + c)];
            Keep(region) == Keep(n) && region[..Keep(n)] == n[..Keep(n)]
  {
    hide Classify;
    NextHeaderOf(n);
    NextHeaderAppend(n, c);
    TakeConcat(n, c, NextHeader(n + c));
    KeepIgnoresTrailing(n, c[..NextHeader(c)]);
    TakeConcat(n, c[..NextHeader(c)], Keep(n));
  }

  lemma FindReplaced(a: seq<Line>, n: seq<Line>, c: seq<Line>, id: string)
    requires SplitAround(a, c, id) && NoHeader(n)
    ensures FindHeader(a + n + c, id) == |a| - 1 && (a + n + c)[|a| - 1] == a[|a| - 1]
    ensures !OwnsSubTable((a + n + c)[|a|..], id)
  {
    hide Classify;
    assert a + n + c == a + (n + c) && (a + n + c)[|a|..] == n + c;
    FindHeaderAppend(a, n + c, id);
    OwnsAppend(n, c, id);
    OwnsNoHeader(n, id);
  }

  lemma RegionReplaced(a: seq<Line>, n: seq<Line>, c: seq<Line>)
    requires |a| > 0 && NoHeader(n) && Trailing(c[..NextHeader(c)])
    ensures Keep(Region(a + n + c, |a| - 1)) == Keep(n)
  {
    hide Classify;
    ConcatAssoc(a, n, c);
    RegionOf(n, c);
  }

  lemma {:induction false} RunStartPrefix(ls: seq<Line>, ls': seq<Line>, h: nat)
    requires h <= |ls| && h <= |ls'| && ls[..h] == ls'[..h]
    ensures RunStart(ls, h) == RunStart(ls', h)
    decreases h
  {
    hide Classify;
    if h > 0 {
      assert ls[h - 1] == ls[..h][h - 1] == ls'[h - 1];
      assert ls[..h - 1] == ls[..h][..h - 1] == ls'[..h - 1];
      RunStartPrefix(ls, ls', h - 1);
    }
  }

  lemma {:induction false} BodyLinesSkip(n: seq<Line>, c: seq<Line>, id: string)
    requires forall i :: 0 <= i < |n| ==> !(IsHeader(n[i]) && n[i].kind.id == id)
    ensures BodyLines(n + c, id) == BodyLines(c, id)
  {
    hide Classify;
    if n == [] {
      assert n + c == c;
    } else {
      assert (n + c)[1..] == n[1..] + c && (n + c)[0] == n[0];
      BodyLinesSkip(n[1..], c, id);
    }
  }

  /** Exchanging the lines after a header for other lines without headers does not touch any other table. */
  lemma {:induction false} OtherTableKept(a: seq<Line>, b: seq<Line>, n: seq<Line>, c: seq<Line>, other: string)
    requires |a| > 0 && IsHeader(a[|a| - 1]) && a[|a| - 1].kind.id != other
    requires NoHeader(b) && NoHeader(n)
    ensures BodyLines(a + (b + c), other) == BodyLines(a + (n + c), other)
  {
    hide Classify;
    assert (a + (b + c))[1..] == a[1..] + (b + c) && (a + (n + c))[1..] == a[1..] + (n + c);
    if IsHeader(a[0]) && a[0].kind.id == other {
      TableKept(a[0], a[1..], b, n, c, other);
    } else if |a| == 1 {
      assert a[1..] + (b + c) == b + c && a[1..] + (n + c) == n + c;
      BodyLinesSkip(b, c, other);
      BodyLinesSkip(n, c, other);
    } else {
      OtherTableKept(a[1..], b, n, c, other);
    }
  }

  lemma TableKept(hd: Line, a: seq<Line>, b: seq<Line>, n: seq<Line>, c: seq<Line>, other: string)
    requires IsHeader(hd) && |a| > 0 && IsHeader(a[|a| - 1]) && NoHeader(b) && NoHeader(n)
    ensures TableOf(hd, a + (b + c), other) == TableOf(hd, a + (n + c), other)
  {
    hide Classify;
    OwnsAround(a, b, c, other);
    OwnsAround(a, n, c, other);
    NextHeaderAppend(a, b + c);
    NextHeaderAppend(a, n + c);
    NextHeaderLast(a);
    var k := NextHeader(a);
    assert (a + (b + c))[..k] == a[..k] == (a + (n + c))[..k];
  }

  lemma OwnsAround(a: seq<Line>, n: seq<Line>, c: seq<Line>, id: string)
    requires NoHeader(n)
    ensures OwnsSubTable(a + (n + c), id) <==> OwnsSubTable(a, id) || OwnsSubTable(c, id)
  {
    hide Classify;
    OwnsAppend(a, n + c, id);
    OwnsAppend(n, c, id);
    OwnsNoHeader(n, id);
  }

  lemma NextHeaderLast(ls: seq<Line>)
    requires |ls| > 0 && IsHeader(ls[|ls| - 1])
    ensures NextHeader(ls) < |ls|
  {
    hide Classify;
    var n := NextHeader(ls);
    assert forall i :: 0 <= i < n ==> ls[..n][i] == ls[i];
  }

  // ----- the laws of ReplaceBody

  /** The table's header line ends in a newline and leaves the scanner in NEUTRAL. */
  predicate OpenForEdit(src: string, id: string) {
    var ls := Scan(src);
    Locate(ls, id).Ok? && var l := ls[Locate(ls, id).value.head];
                          Whole(l.raw) && Advance(l.raw, NEUTRAL) == NEUTRAL
  }

  /** What a settings form may submit: closed, free of headers, and whole lines. */
  predicate ProperBody(body: string) {
    Closed(body) && Whole(body) && NoHeader(Scan(body))
  }

  /** A body cut back to what the editor counts as body: blank lines and detached comments at its end are not. */
  function TrimBody(body: string): string {
    Concat(Scan(body)[..Keep(Scan(body))])
  }

  /** Lines i to j can be cut out: the scanner is in NEUTRAL before and after them. */
  predicate Removable(src: string, i: nat, j: nat) {
    i <= j <= |Scan(src)| && NeutralAt(src, i) && (j < |Scan(src)| ==> Scan(src)[j].structural)
  }

  /** Replacing such lines by a text replaces exactly those lines. */
  lemma ReplaceScans(src: string, i: nat, j: nat, n: string)
    requires Removable(src, i, j) && (j == |Scan(src)| || (Closed(n) && Whole(n)))
    ensures Scan(Concat(Scan(src)[..i]) + n + Concat(Scan(src)[j..])) == Scan(src)[..i] + Scan(n) + Scan(src)[j..]
  {
    hide Classify, Lines;
    CutTexts(src, i);
    RestStandsAlone(src, j);
    Transplant(Concat(Scan(src)[..i]), n, Concat(Scan(src)[j..]));
  }

  lemma RestStandsAlone(src: string, j: nat)
    requires j <= |Scan(src)| && (j < |Scan(src)| ==> Scan(src)[j].structural)
    ensures Scan(Concat(Scan(src)[j..])) == Scan(src)[j..]
  {
    hide Classify;
    if j < |Scan(src)| {
      StructuralIsNeutral(src, j);
    } else {
      assert Scan(src)[j..] == [] && Scan("") == [];
    }
  }

  /** The text of such lines scans on its own to the lines it has in the file, and is closed where more follows. */
  lemma PartStandsAlone(src: string, i: nat, j: nat)
    requires Removable(src, i, j)
    ensures var text := Concat(Scan(src)[i..j]);
            && Scan(text) == Scan(src)[i..j]
            && (j < |Scan(src)| ==> Closed(text) && Whole(text))
  {
    hide Classify, Lines;
    CutTexts(src, i);
    var rest := Concat(Scan(src)[i..]);
    assert Scan(rest) == Scan(src)[i..];
    DropDrop(Scan(src), i, j);
    CutTexts(rest, j - i);
    if j < |Scan(src)| {
      assert Scan(rest)[j - i] == Scan(src)[j];
    }
  }

  /** The lines of a table's body can be cut out. */
  lemma BodyRemovable(src: string, id: string)
    requires OpenForEdit(src, id)
    ensures Removable(src, Locate(Scan(src), id).value.head + 1, Locate(Scan(src), id).value.end)
  {
    hide Classify, Keep, FindHeader;
    var b := Locate(Scan(src), id).value;
    NextIsNeutral(src, b.head);
    SplitOf(Scan(src), id);
    if b.end < |Scan(src)| {
      TrailingStructural(Scan(src)[b.end..]);
    }
  }

  lemma TrailingStructural(c: seq<Line>)
    requires c != [] && Trailing(c[..NextHeader(c)])
    ensures c[0].structural
  {
    hide Classify;
    if NextHeader(c) > 0 {
      assert c[0] == c[..NextHeader(c)][0];
    }
  }

  /**
   ReplaceBody keeps the list of tables, leaves the body of every other table as it was (and refuses the same ones),
   and what it stored is read back cut to its own TrimBody.
   */
  lemma ReplaceBodyLaws(src: string, id: string, body: string)
    requires OpenForEdit(src, id) && ProperBody(Normalise(body, DominantEol(src)))
    ensures ReplacedBody(src, id, body).Ok?
    ensures var out := ReplacedBody(src, id, body).value;
            && Ids(Scan(out)) == Ids(Scan(src))
            && Body(out, id) == Ok(TrimBody(Normalise(body, DominantEol(src))))
            && forall other :: other != id ==> Body(out, other) == Body(src, other)
  {
    hide Classify;
    var n := Normalise(body, DominantEol(src));
    var b := Locate(Scan(src), id).value;
    BodyRemovable(src, id);
    ReplaceScans(src, b.head + 1, b.end, n);
    var out := Concat(Scan(src)[..b.head + 1]) + n + Concat(Scan(src)[b.end..]);
    assert ReplacedBody(src, id, body) == Ok(out);
    LinesExchanged(Scan(src), id, Scan(n));
    forall other | other != id ensures Body(out, other) == Body(src, other) {
    }
  }

  /** A run of blank lines and comments at the end of the lines, starting with a blank one, is not part of a body. */
  predicate EndsDetached(ls: seq<Line>) {
    exists k :: 0 <= k < |ls| && Trailing(ls[k..])
  }

  /** Exactly such lines are cut back. */
  lemma KeepsAll(ls: seq<Line>)
    ensures Keep(ls) == |ls| <==> !EndsDetached(ls)
  {
    hide Classify;
    KeepLeavesTrailing(ls);
    if EndsDetached(ls) {
      var k :| 0 <= k < |ls| && Trailing(ls[k..]);
      assert ls == ls[..k] + ls[k..];
      KeepIgnoresTrailing(ls[..k], ls[k..]);
    }
  }

  lemma KeepsWhole(n: string)
    ensures TrimBody(n) == n <==> !EndsDetached(Scan(n))
  {
    hide Classify;
    KeepsAll(Scan(n));
    var k := Keep(Scan(n));
    LinesSpell(n, NEUTRAL);
    ThreeLists(Scan(n), 0, k);
    assert Scan(n)[..|Scan(n)|] == Scan(n) && Scan(n)[0..k] == Scan(n)[..k];
    if k < |Scan(n)| {
      LineOf(n, k);
      assert Concat(Scan(n)[k..]) != "";
    }
  }

  /** A submitted body is read back exactly as it was stored if and only if it does not end in detached filler. */
  lemma ReadBack(src: string, id: string, body: string)
    requires OpenForEdit(src, id) && ProperBody(Normalise(body, DominantEol(src)))
    ensures var n := Normalise(body, DominantEol(src));
            Body(ReplacedBody(src, id, body).value, id) == Ok(n) <==> !EndsDetached(Scan(n))
  {
    hide Classify;
    ReplaceBodyLaws(src, id, body);
    KeepsWhole(Normalise(body, DominantEol(src)));
  }

  lemma BodyIs(src: string, id: string)
    ensures match Locate(Scan(src), id)
            case Err(e) => Body(src, id) == Err(e)
            case Ok(b) => Body(src, id) == Ok(Concat(Scan(src)[b.head + 1..b.end]))
  {
    hide Classify;
    BodyLinesLocated(Scan(src), id);
  }

  /** Replacing a body by itself does not move a character, whatever the file looks like. */
  lemma ReplaceByItself(src: string, id: string, body: string)
    requires Body(src, id) == Ok(body) && Normalise(body, DominantEol(src)) == body
    ensures ReplacedBody(src, id, body) == Ok(src)
  {
    hide Classify;
    BodyIs(src, id);
    match Locate(Scan(src), id)
    case Ok(b) => FileParts(src, b.head + 1, b.end);
  }

  /** A file is its lines up to i, from i to j, and from j on. */
  lemma FileParts(src: string, i: nat, j: nat)
    requires i <= j <= |Scan(src)|
    ensures src == Concat(Scan(src)[..i]) + Concat(Scan(src)[i..j]) + Concat(Scan(src)[j..])
  {
    hide Classify;
    LinesSpell(src, NEUTRAL);
    ThreeLists(Scan(src), i, j);
  }

  /** ReplaceBodyLaws, on line lists. */
  lemma LinesExchanged(ls: seq<Line>, id: string, n: seq<Line>)
    requires Locate(ls, id).Ok? && NoHeader(n)
    ensures var b := Locate(ls, id).value;
            var out := ls[..b.head + 1] + n + ls[b.end..];
            && Ids(out) == Ids(ls)
            && BodyLines(out, id) == Ok(n[..Keep(n)])
            && forall other :: other != id ==> BodyLines(out, other) == BodyLines(ls, other)
  {
    hide Classify, Keep, FindHeader, BodyLines;
    var b := Locate(ls, id).value;
    SplitOf(ls, id);
    SplitSlices(ls, b.head + 1, b.end - b.head - 1);
    LinesReplaced(ls[..b.head + 1], ls[b.head + 1..b.end], ls[b.end..], n, id);
  }

  lemma LinesReplaced(a: seq<Line>, b: seq<Line>, c: seq<Line>, n: seq<Line>, id: string)
    requires Split(a, b, c, id) && NoHeader(n)
    ensures Ids(a + n + c) == Ids(a + b + c)
    ensures BodyLines(a + n + c, id) == Ok(n[..Keep(n)])
    ensures forall other :: other != id ==> BodyLines(a + n + c, other) == BodyLines(a + b + c, other)
  {
    hide Classify;
    IdsAround(a, b, c);
    IdsAround(a, n, c);
    BodySplit(a, n, c, id);
    OthersKept(a, b, c, n, id);
  }

  lemma OthersKept(a: seq<Line>, b: seq<Line>, c: seq<Line>, n: seq<Line>, id: string)
    requires |a| > 0 && IsHeader(a[|a| - 1]) && a[|a| - 1].kind.id == id && NoHeader(b) && NoHeader(n)
    ensures forall other :: other != id ==> BodyLines(a + n + c, other) == BodyLines(a + b + c, other)
  {
    hide Classify;
    ConcatAssoc(a, b, c);
    ConcatAssoc(a, n, c);
    forall other | other != id ensures BodyLines(a + n + c, other) == BodyLines(a + b + c, other) {
      OtherTableKept(a, b, n, c, other);
    }
  }

  lemma IdsAround(a: seq<Line>, n: seq<Line>, c: seq<Line>)
    requires NoHeader(n)
    ensures Ids(a + n + c) == Ids(a) + Ids(c)
  {
    hide Classify;
    IdsAppend(a + n, c);
    IdsAppend(a, n);
    IdsNoHeader(n);
  }

  /** A text that takes the place of a body is read back, and nothing else changes, if Keep keeps all of it. */
  lemma BodyExchanged(src: string, id: string, n: string, out: string)
    requires OpenForEdit(src, id)
    requires Locate(Scan(src), id).value.end == |Scan(src)| || (Closed(n) && Whole(n))
    requires NoHeader(Scan(n)) && Keep(Scan(n)) == |Scan(n)|
    requires var ls, b := Scan(src), Locate(Scan(src), id).value;
             out == Concat(ls[..b.head + 1]) + n + Concat(ls[b.end..])
    ensures Ids(Scan(out)) == Ids(Scan(src)) && Body(out, id) == Ok(n)
    ensures forall other :: other != id ==> Body(out, other) == Body(src, other)
  {
    hide Classify, Keep, FindHeader, Lines, BodyLines;
    var b := Locate(Scan(src), id).value;
    BodyRemovable(src, id);
    ReplaceScans(src, b.head + 1, b.end, n);
    LinesExchanged(Scan(src), id, Scan(n));
    LinesSpell(n, NEUTRAL);
    assert Scan(n)[..Keep(Scan(n))] == Scan(n);
  }

  /** After such an exchange the file is the same text around the new body. */
  lemma ExchangedParts(src: string, id: string, n: string, out: string)
    requires OpenForEdit(src, id)
    requires Locate(Scan(src), id).value.end == |Scan(src)| || (Closed(n) && Whole(n))
    requires NoHeader(Scan(n)) && Keep(Scan(n)) == |Scan(n)|
    requires var ls, b := Scan(src), Locate(Scan(src), id).value;
             out == Concat(ls[..b.head + 1]) + n + Concat(ls[b.end..])
    ensures Locate(Scan(out), id).Ok?
    ensures var ls, b := Scan(src), Locate(Scan(src), id).value;
            var ls', b' := Scan(out), Locate(Scan(out), id).value;
            && ls'[..b'.head + 1] == ls[..b.head + 1] && ls'[b'.head + 1..b'.end] == Scan(n)
            && ls'[b'.end..] == ls[b.end..]
  {
    hide Classify, Keep, FindHeader, Lines, Concat, Removable;
    var b := Locate(Scan(src), id).value;
    var a, c := Scan(src)[..b.head + 1], Scan(src)[b.end..];
    SplitOf(Scan(src), id);
    BodyRemovable(src, id);
    ReplaceScans(src, b.head + 1, b.end, n);
    hide OpenForEdit, Locate;
    LocateSplit(a, Scan(n), c, id);
    SplitSlices(a + Scan(n) + c, |a|, |Scan(n)|);
  }
}
