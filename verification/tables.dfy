/**
 Locating a table in a scanned file: its header, its leading comment run and the end of its body.

 The locators are stated on line lists; the methods below compute the same positions as offsets into the text, with
 the loops of the source.
 */
module Tables {
  import opened Wrappers
  import opened Text
  import opened Headers
  import opened Lexer

  datatype Error = NotFound | Unsupported

  datatype Result<+T> = Ok(value: T) | Err(error: Error)

  predicate IsHeader(l: Line) {
    l.structural && l.kind.Header?
  }

  predicate IsBlank(l: Line) {
    l.structural && l.kind.Blank?
  }

  predicate IsComment(l: Line) {
    l.structural && l.kind.Comment?
  }

  /** A blank line or a comment: the editor never lets one end a block unless it is attached to a value. */
  predicate IsFiller(l: Line) {
    IsBlank(l) || IsComment(l)
  }

  predicate AllFiller(ls: seq<Line>) {
    forall i :: 0 <= i < |ls| ==> IsFiller(ls[i])
  }

  predicate NoHeader(ls: seq<Line>) {
    forall i :: 0 <= i < |ls| ==> !IsHeader(ls[i])
  }

  // ----- the specification of the locators

  /** The simple table ids, in source order. */
  function Ids(ls: seq<Line>): seq<string> {
    if ls == [] then []
    else (if IsHeader(ls[0]) && ls[0].kind.simple then [ls[0].kind.id] else []) + Ids(ls[1..])
  }

  /** The first header with the given id, or |ls|. */
  function FindHeader(ls: seq<Line>, id: string): (h: nat)
    ensures h <= |ls|
    ensures forall i :: 0 <= i < h ==> !(IsHeader(ls[i]) && ls[i].kind.id == id)
    ensures h < |ls| ==> IsHeader(ls[h]) && ls[h].kind.id == id
  {
    if ls == [] || (IsHeader(ls[0]) && ls[0].kind.id == id) then 0 else 1 + FindHeader(ls[1..], id)
  }

  /** The first header of any id, or |ls|. */
  function NextHeader(ls: seq<Line>): (n: nat)
    ensures n <= |ls| && NoHeader(ls[..n])
    ensures n < |ls| ==> IsHeader(ls[n])
  {
    if ls == [] || IsHeader(ls[0]) then 0 else 1 + NextHeader(ls[1..])
  }

  predicate OwnsSubTable(ls: seq<Line>, id: string) {
    exists i :: 0 <= i < |ls| && IsHeader(ls[i]) && id + "." <= ls[i].kind.id
  }

  /** Where the comment run that ends just before line h starts. */
  function RunStart(ls: seq<Line>, h: nat): (first: nat)
    requires h <= |ls|
    ensures first <= h && forall i :: first <= i < h ==> IsComment(ls[i])
    ensures first > 0 ==> !IsComment(ls[first - 1])
  {
    if h > 0 && IsComment(ls[h - 1]) then RunStart(ls, h - 1) else h
  }

  /** The length of the region up to its last line that is neither blank nor a comment. */
  function ContentLen(region: seq<Line>): (n: nat)
    ensures n <= |region| && AllFiller(region[n..])
    ensures n > 0 ==> !IsFiller(region[n - 1])
  {
    if region == [] || !IsFiller(region[|region| - 1]) then |region|
    else
      var n := ContentLen(region[..|region| - 1]);
      assert forall i :: n <= i < |region| - 1 ==> region[i] == region[..|region| - 1][n..][i - n];
      n
  }

  function FirstBlank(ls: seq<Line>): (n: nat)
    ensures n <= |ls| && forall i :: 0 <= i < n ==> !IsBlank(ls[i])
    ensures n < |ls| ==> IsBlank(ls[n])
  {
    if ls == [] || IsBlank(ls[0]) then 0 else 1 + FirstBlank(ls[1..])
  }

  /**
   How much of the lines after a header is the table's body: everything up to the first blank line that only blank
   lines and comments follow.
   */
  function Keep(region: seq<Line>): (n: nat)
    ensures n <= |region|
  {
    ContentLen(region) + FirstBlank(region[ContentLen(region)..])
  }

  /** A region that ends in a value line is kept whole. */
  lemma KeepsLast(region: seq<Line>)
    requires region != [] && !IsFiller(region[|region| - 1])
    ensures Keep(region) == |region|
  {
  }

  datatype Block = Block(first: nat, head: nat, end: nat)

  /** The lines of a table: comment run, header, and one past the end of the body. */
  function Locate(ls: seq<Line>, id: string): (r: Result<Block>)
    ensures r.Ok? ==> r.value.first <= r.value.head < r.value.end <= |ls|
    ensures r.Ok? ==> r.value.head == FindHeader(ls, id) && ls[r.value.head].kind.simple
  {
    var h := FindHeader(ls, id);
    if h == |ls| then Err(NotFound)
    else if !ls[h].kind.simple then Err(Unsupported)
    else if OwnsSubTable(ls[h + 1..], id) then Err(Unsupported)
    else Ok(BlockAt(ls, h))
  }

  /**
   * The block of the header at line h; a comment run that reaches the top of the file is the file's, not the block's.
   */
  function BlockAt(ls: seq<Line>, h: nat): (b: Block)
    requires h < |ls|
    ensures b.first <= b.head == h < b.end <= |ls|
  {
    var run := RunStart(ls, h);
    Block(if run == 0 then h else run, h, h + 1 + Keep(Region(ls, h)))
  }

  /** The lines between a header and the next one. */
  function Region(ls: seq<Line>, h: nat): (r: seq<Line>)
    requires h < |ls|
    ensures NoHeader(r) && h + 1 + |r| <= |ls| && r == ls[h + 1..h + 1 + |r|]
  {
    ls[h + 1..][..NextHeader(ls[h + 1..])]
  }

  /** The body of the table whose header is hd, given the lines after it. */
  function TableOf(hd: Line, rest: seq<Line>, id: string): Result<seq<Line>>
    requires IsHeader(hd)
  {
    if !hd.kind.simple || OwnsSubTable(rest, id) then Err(Unsupported)
    else
      var region := rest[..NextHeader(rest)];
      Ok(region[..Keep(region)])
  }

  /** The body of table id, walking the file from the front. */
  function BodyLines(ls: seq<Line>, id: string): Result<seq<Line>> {
    if ls == [] then Err(NotFound)
    else if IsHeader(ls[0]) && ls[0].kind.id == id then TableOf(ls[0], ls[1..], id)
    else BodyLines(ls[1..], id)
  }

  lemma {:induction false} BodyLinesAt(ls: seq<Line>, id: string)
    ensures var h := FindHeader(ls, id);
            BodyLines(ls, id) == if h < |ls| then TableOf(ls[h], ls[h + 1..], id) else Err(NotFound)
  {
    hide Classify, TableOf, Keep, NextHeader;
    if ls == [] || (IsHeader(ls[0]) && ls[0].kind.id == id) {
    } else {
      BodyLinesAt(ls[1..], id);
      var h := FindHeader(ls[1..], id);
      if h < |ls[1..]| {
        assert ls[1..][h + 1..] == ls[h + 2..];
      }
    }
  }

  lemma BodyLinesLocated(ls: seq<Line>, id: string)
    ensures match Locate(ls, id)
            case Err(e) => BodyLines(ls, id) == Err(e)
            case Ok(b) => BodyLines(ls, id) == Ok(ls[b.head + 1..b.end])
  {
    hide Classify, FindHeader, Keep, NextHeader, BodyLines;
    BodyLinesAt(ls, id);
    var h := FindHeader(ls, id);
    if h < |ls| {
      BodySlice(ls, h);
    }
  }

  lemma BodySlice(ls: seq<Line>, h: nat)
    requires h < |ls|
    ensures var region := ls[h + 1..][..NextHeader(ls[h + 1..])];
            ls[h + 1..BlockAt(ls, h).end] == region[..Keep(region)]
  {
  }

  function Offset(ls: seq<Line>, k: nat): nat
    requires k <= |ls|
  {
    |Concat(ls[..k])|
  }

  function Body(src: string, id: string): Result<string> {
    match BodyLines(Scan(src), id)
    case Err(e) => Err(e)
    case Ok(ls) => Ok(Concat(ls))
  }

  // ----- offsets: line k of a scan starts at Offset(k) and ends at Offset(k + 1)

  lemma ThreeParts(a: string, b: string, c: string)
    ensures var s := a + b + c;
            s[..|a|] == a && s[|a|..|a + b|] == b && s[|a + b|..] == c
  {
  }

  lemma ThreeLists(ls: seq<Line>, i: nat, j: nat)
    requires i <= j <= |ls|
    ensures Concat(ls) == Concat(ls[..i]) + Concat(ls[i..j]) + Concat(ls[j..])
    ensures Concat(ls[..j]) == Concat(ls[..i]) + Concat(ls[i..j])
  {
    hide Classify;
    assert ls[..j] == ls[..i] + ls[i..j];
    ConcatAppend(ls[..i], ls[i..j]);
    assert ls == ls[..j] + ls[j..];
    ConcatAppend(ls[..j], ls[j..]);
  }

  /** The text between two line offsets is those lines. */
  lemma Slice(src: string, i: nat, j: nat)
    requires i <= j <= |Scan(src)|
    ensures Offset(Scan(src), i) <= Offset(Scan(src), j) <= |src|
    ensures src[..Offset(Scan(src), i)] == Concat(Scan(src)[..i])
    ensures src[Offset(Scan(src), i)..Offset(Scan(src), j)] == Concat(Scan(src)[i..j])
    ensures src[Offset(Scan(src), j)..] == Concat(Scan(src)[j..])
  {
    hide Classify;
    var ls := Scan(src);
    LinesSpell(src, NEUTRAL);
    ThreeLists(ls, i, j);
    ThreeParts(Concat(ls[..i]), Concat(ls[i..j]), Concat(ls[j..]));
  }

  // ----- the code

  lemma LinesHead(s: string, st: State)
    requires s != ""
    ensures var n := LineLen(s);
            Lines(s, st) == [MkLine(s[..n], st)] + Lines(s[n..], Advance(s[..n], st))
  {
  }

  lemma Regroup(ls: seq<Line>, l: Line, more: seq<Line>)
    ensures ls + ([l] + more) == ls + [l] + more
  {
  }

  lemma LinesEnd(st: State)
    ensures Lines("", st) == []
  {
  }

  /** scan. */
  method ScanLines(src: string) returns (ls: seq<Line>)
    ensures ls == Scan(src)
  {
    hide Classify, Lines, Advance;
    ls := [];
    var ml, depth := MlNone, 0;
    var pos := 0;
    assert src[0..] == src;
    while pos < |src|
      invariant pos <= |src|
      invariant Scan(src) == ls + Lines(src[pos..], State(ml, depth))
    {
      ghost var rest := src[pos..];
      LinesHead(rest, State(ml, depth));
      var end := pos + LineLen(src[pos..]);
      var raw := src[pos..end];
      assert raw == rest[..end - pos] && src[end..] == rest[end - pos..];
      var l := MkLine(raw, State(ml, depth));
      ml, depth := AdvanceLine(raw, ml, depth);
      Regroup(ls, l, Lines(src[end..], State(ml, depth)));
      ls := ls + [l];
      pos := end;
    }
    assert src[pos..] == "";
    LinesEnd(State(ml, depth));
  }

  /** trimTrailing: the last line of the block whose header is line h, given where the next header is. */
  method TrimTrailing(ls: seq<Line>, h: nat, next: nat) returns (last: nat)
    requires h < next <= |ls| && IsHeader(ls[h]) && NoHeader(ls[h + 1..next])
    ensures last == h + Keep(ls[h + 1..next])
  {
    hide Classify;
    var m := next - 1;
    ghost var region := ls[h + 1..next];
    while true
      invariant h <= m < next
      invariant forall i :: m < i < next ==> IsFiller(ls[i])
      invariant m + 1 < next ==> IsBlank(ls[m + 1]) || IsBlank(ls[m])
      decreases m
    {
      var m0 := m;
      while m > h && IsBlank(ls[m])
        invariant h <= m <= m0 < next
        invariant forall i :: m < i < next ==> IsFiller(ls[i])
        invariant m + 1 < next ==> IsBlank(ls[m + 1]) || IsBlank(ls[m])
      {
        m := m - 1;
      }
      if m <= h || !IsComment(ls[m]) {
        KeepIs(region, m - h, m - h);
        break;
      }
      var j := m;
      while j > h && IsComment(ls[j])
        invariant h <= j <= m
        invariant forall i :: j < i <= m ==> IsComment(ls[i])
      {
        j := j - 1;
      }
      if !IsBlank(ls[j]) {
        KeepIs(region, j - h, m - h);
        break;
      }
      m := j;
    }
    last := m;
  }

  /** Keep is determined by the last content line and the first blank line after it. */
  lemma KeepIs(region: seq<Line>, content: nat, keep: nat)
    requires content <= keep <= |region|
    requires content > 0 ==> !IsFiller(region[content - 1])
    requires forall i :: content <= i < |region| ==> IsFiller(region[i])
    requires forall i :: content <= i < keep ==> IsComment(region[i])
    requires keep < |region| ==> IsBlank(region[keep])
    ensures ContentLen(region) == content && Keep(region) == keep
  {
    hide Classify;
    ContentIs(region, content);
    BlankAfter(region, content, keep);
  }

  lemma BlankAfter(region: seq<Line>, content: nat, keep: nat)
    requires content <= keep <= |region|
    requires forall i :: content <= i < keep ==> IsComment(region[i])
    requires keep < |region| ==> IsBlank(region[keep])
    ensures FirstBlank(region[content..]) == keep - content
  {
    hide Classify;
    BlankIs(region[content..], keep - content);
  }

  lemma ContentIs(region: seq<Line>, content: nat)
    requires content <= |region|
    requires content > 0 ==> !IsFiller(region[content - 1])
    requires forall i :: content <= i < |region| ==> IsFiller(region[i])
    ensures ContentLen(region) == content
  {
    hide Classify;
    if content < |region| {
      ContentIs(region[..|region| - 1], content);
    }
  }

  lemma BlankIs(ls: seq<Line>, n: nat)
    requires n <= |ls| && forall i :: 0 <= i < n ==> !IsBlank(ls[i])
    requires n < |ls| ==> IsBlank(ls[n])
    ensures FirstBlank(ls) == n
  {
  }

  method FindHeaderRow(ls: seq<Line>, id: string) returns (h: nat)
    ensures h == FindHeader(ls, id)
  {
    hide Classify;
    h := 0;
    while h < |ls| && !(IsHeader(ls[h]) && ls[h].kind.id == id)
      invariant h <= |ls|
      invariant forall i :: 0 <= i < h ==> !(IsHeader(ls[i]) && ls[i].kind.id == id)
    {
      h := h + 1;
    }
  }

  method OwnsSubTableAfter(ls: seq<Line>, h: nat, id: string) returns (owns: bool)
    requires h < |ls|
    ensures owns <==> OwnsSubTable(ls[h + 1..], id)
  {
    hide Classify;
    ghost var after := ls[h + 1..];
    for i := h + 1 to |ls|
      invariant forall k :: 0 <= k < i - h - 1 ==> !(IsHeader(after[k]) && id + "." <= after[k].kind.id)
    {
      assert after[i - h - 1] == ls[i];
      if IsHeader(ls[i]) && id + "." <= ls[i].kind.id {
        return true;
      }
    }
    owns := false;
  }

  method FirstOfRun(ls: seq<Line>, h: nat) returns (first: nat)
    requires h < |ls|
    ensures first == if RunStart(ls, h) == 0 then h else RunStart(ls, h)
  {
    hide Classify;
    first := h;
    while first > 0 && IsComment(ls[first - 1])
      invariant first <= h
      invariant RunStart(ls, h) == RunStart(ls, first)
    {
      first := first - 1;
    }
    if first == 0 {
      first := h;
    }
  }

  /** The body of Span, on the scanned lines. */
  method SpanRows(ls: seq<Line>, id: string) returns (r: Result<Block>)
    ensures r == Locate(ls, id)
  {
    hide Classify;
    var h := FindHeaderRow(ls, id);
    if h == |ls| {
      return Err(NotFound);
    }
    if !ls[h].kind.simple {
      return Err(Unsupported);
    }
    var owns := OwnsSubTableAfter(ls, h, id);
    if owns {
      return Err(Unsupported);
    }
    var b := BlockOfHeader(ls, h);
    r := Ok(b);
  }

  method BlockOfHeader(ls: seq<Line>, h: nat) returns (b: Block)
    requires h < |ls| && IsHeader(ls[h])
    ensures b == BlockAt(ls, h)
  {
    hide Classify;
    var first := FirstOfRun(ls, h);
    var next := h + 1;
    while next < |ls| && !IsHeader(ls[next])
      invariant h < next <= |ls|
      invariant forall i :: h < i < next ==> !IsHeader(ls[i])
    {
      next := next + 1;
    }
    RegionIs(ls, h, next);
    var last := TrimTrailing(ls, h, next);
    b := Block(first, h, last + 1);
  }

  lemma RegionIs(ls: seq<Line>, h: nat, next: nat)
    requires h < next <= |ls| && forall i :: h < i < next ==> !IsHeader(ls[i])
    requires next < |ls| ==> IsHeader(ls[next])
    ensures Region(ls, h) == ls[h + 1..next]
  {
    hide Classify;
    var after := ls[h + 1..];
    var n := NextHeader(after);
    assert forall i :: 0 <= i < |after| ==> after[i] == ls[h + 1 + i];
    assert forall i :: 0 <= i < n ==> after[..n][i] == after[i];
    assert n == next - h - 1;
  }

  /** The offsets of a table's whole block. */
  function BlockRange(src: string, id: string): Result<(nat, nat)> {
    match Locate(Scan(src), id)
    case Err(e) => Err(e)
    case Ok(b) => Ok((Offset(Scan(src), b.first), Offset(Scan(src), b.end)))
  }

  /** The offsets of a table's body. */
  function BodyRange(src: string, id: string): Result<(nat, nat)> {
    match Locate(Scan(src), id)
    case Err(e) => Err(e)
    case Ok(b) => Ok((Offset(Scan(src), b.head + 1), Offset(Scan(src), b.end)))
  }

  method Span(src: string, id: string) returns (r: Result<(nat, nat)>)
    ensures r == BlockRange(src, id)
  {
    hide Classify;
    var ls := ScanLines(src);
    var b := SpanRows(ls, id);
    r := if b.Err? then Err(b.error) else Ok((Offset(ls, b.value.first), Offset(ls, b.value.end)));
  }

  lemma OffsetMonotone(ls: seq<Line>, i: nat, j: nat)
    requires i <= j <= |ls|
    ensures Offset(ls, i) <= Offset(ls, j)
  {
    hide Classify;
    assert ls[..j] == ls[..i] + ls[i..j];
    ConcatAppend(ls[..i], ls[i..j]);
  }

  lemma BlockOffsets(ls: seq<Line>, b: Block)
    requires b.first <= b.head < b.end <= |ls|
    ensures Offset(ls, b.first) <= Offset(ls, b.head) && Offset(ls, b.head + 1) <= Offset(ls, b.end)
  {
    hide Classify;
    OffsetMonotone(ls, b.first, b.head);
    OffsetMonotone(ls, b.head + 1, b.end);
  }

  /** The search of BodySpan for the header at or after the start of the block. */
  method HeaderAtOrAfter(ls: seq<Line>, id: string, blockStart: nat, ghost h: nat) returns (i: nat)
    requires h == FindHeader(ls, id) < |ls| && blockStart <= Offset(ls, h)
    ensures i == h
  {
    hide Classify;
    i := 0;
    while !(IsHeader(ls[i]) && ls[i].kind.id == id && Offset(ls, i) >= blockStart)
      invariant i <= h
      decreases h - i
    {
      i := i + 1;
    }
  }

  method BodySpan(src: string, id: string) returns (r: Result<(nat, nat)>)
    ensures r == BodyRange(src, id)
  {
    hide Classify;
    var ls := ScanLines(src);
    var span := SpanRows(ls, id);
    match span
    case Err(e) => r := Err(e);
    case Ok(b) =>
      var start, end := BodyOfBlock(ls, id, b);
      r := Ok((start, end));
  }

  method BodyOfBlock(ls: seq<Line>, id: string, b: Block) returns (start: nat, end: nat)
    requires b.first <= b.head == FindHeader(ls, id) < b.end <= |ls|
    ensures start == Offset(ls, b.head + 1) && end == Offset(ls, b.end)
  {
    hide Classify;
    var blockStart, blockEnd := Offset(ls, b.first), Offset(ls, b.end);
    BlockOffsets(ls, b);
    var i := HeaderAtOrAfter(ls, id, blockStart, b.head);
    start := Offset(ls, i + 1);
    end := if start >= blockEnd then start else blockEnd;
  }

  lemma {:induction false} IdsAppend(a: seq<Line>, b: seq<Line>)
    ensures Ids(a + b) == Ids(a) + Ids(b)
  {
    hide Classify;
    if a == [] {
      assert a + b == b;
    } else {
      IdsAppend(a[1..], b);
      assert (a + b)[1..] == a[1..] + b && (a + b)[0] == a[0];
    }
  }

  lemma IdsNext(ls: seq<Line>, i: nat)
    requires i < |ls|
    ensures Ids(ls[..i + 1]) == Ids(ls[..i]) + (if IsHeader(ls[i]) && ls[i].kind.simple then [ls[i].kind.id] else [])
  {
    hide Classify;
    assert ls[..i + 1] == ls[..i] + [ls[i]];
    IdsAppend(ls[..i], [ls[i]]);
    assert Ids([ls[i]][1..]) == [];
  }

  /** IDs. */
  method IDs(src: string) returns (ids: seq<string>)
    ensures ids == Ids(Scan(src))
  {
    hide Classify;
    var ls := ScanLines(src);
    ids := [];
    for i := 0 to |ls|
      invariant ids == Ids(ls[..i])
    {
      IdsNext(ls, i);
      if IsHeader(ls[i]) && ls[i].kind.simple {
        ids := ids + [ls[i].kind.id];
      }
    }
    assert ls[..|ls|] == ls;
  }

  method HasTableHeader(body: string) returns (found: bool)
    ensures found <==> !NoHeader(Scan(body))
  {
    hide Classify;
    var ls := ScanLines(body);
    for i := 0 to |ls|
      invariant forall k :: 0 <= k < i ==> !IsHeader(ls[k])
    {
      if IsHeader(ls[i]) {
        return true;
      }
    }
    found := false;
  }

  method BodyText(src: string, id: string) returns (r: Result<string>)
    ensures r == Body(src, id)
  {
    hide Classify;
    var span := BodySpan(src, id);
    BodyLinesLocated(Scan(src), id);
    match span
    case Err(e) => r := Err(e);
    case Ok((start, end)) =>
      ghost var b := Locate(Scan(src), id).value;
      Slice(src, b.head + 1, b.end);
      r := Ok(src[start..end]);
  }
}
