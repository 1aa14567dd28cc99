/**
 What a table's lines are, said of the lines themselves, and what an edit of the table leaves where it was. The failure
 direction of an edit is a comment left behind, never one deleted: all the lines outside are kept.
 */
module Extents {
  import opened Wrappers
  import opened Text
  import opened Headers
  import opened Lexer
  import opened Tables
  import opened Edits
  import opened Assigns
  import opened SetKeys
  import opened Blocks

  /** Line h is the first header of that id. */
  predicate IsHead(ls: seq<Line>, id: string, h: nat) {
    && h < |ls| && IsHeader(ls[h]) && ls[h].kind.id == id
    && forall j :: 0 <= j < h && IsHeader(ls[j]) ==> ls[j].kind.id != id
  }

  /**
   * The comments directly above line h start at i, unless they reach the top of the file: then none are the table's.
   */
  predicate IsLead(ls: seq<Line>, i: nat, h: nat)
    requires h <= |ls|
  {
    && i <= h && (forall j :: i <= j < h ==> IsComment(ls[j]))
    && (i < h ==> i > 0 && !IsComment(ls[i - 1]))
    && (i == h > 0 && IsComment(ls[h - 1]) ==> forall j :: 0 <= j < h ==> IsComment(ls[j]))
  }

  /** Blank lines and comments, a blank line first: what is detached from the lines before it. */
  predicate IsLoose(ls: seq<Line>, i: nat, j: nat)
    requires i <= j <= |ls|
  {
    (i < j ==> IsBlank(ls[i])) && forall k :: i <= k < j ==> IsBlank(ls[k]) || IsComment(ls[k])
  }

  /** The body under line h ends at e: up to the next header it leaves out exactly what is detached. */
  ghost predicate IsBody(ls: seq<Line>, h: nat, e: nat) {
    && h < e <= |ls|
    && (forall j :: h < j < e ==> !IsHeader(ls[j]))
    && (forall k :: h < k < e ==> !IsLoose(ls, k, e))
    && exists z :: e <= z <= |ls| && IsLoose(ls, e, z) && (z < |ls| ==> IsHeader(ls[z]))
  }

  /** The table is its lead from i on, its header at h, and its body up to e. */
  ghost predicate IsTable(ls: seq<Line>, id: string, i: nat, h: nat, e: nat) {
    IsHead(ls, id, h) && IsLead(ls, i, h) && IsBody(ls, h, e)
  }

  lemma TableLocated(ls: seq<Line>, id: string)
    ensures match Locate(ls, id)
            case Ok(b) =>
              IsTable(ls, id, b.first, b.head, b.end) && ls[b.head].kind.simple && !HasSubTable(ls, id, b.head)
            case Err(NotFound) => forall j :: 0 <= j < |ls| && IsHeader(ls[j]) ==> ls[j].kind.id != id
            case Err(Unsupported) =>
              exists h: nat :: IsHead(ls, id, h) && (!ls[h].kind.simple || HasSubTable(ls, id, h))
  {
    hide Classify, Keep, RunStart;
    var h := FindHeader(ls, id);
    if h < |ls| {
      assert IsHead(ls, id, h);
      SubTableLater(ls, id, h);
      if Locate(ls, id).Ok? {
        LeadAt(ls, h);
        BodyAt(ls, h);
      }
    }
  }

  /** A later header is that of a table under this one. */
  predicate HasSubTable(ls: seq<Line>, id: string, h: nat) {
    exists j :: h < j < |ls| && IsHeader(ls[j]) && id + "." <= ls[j].kind.id
  }

  lemma SubTableLater(ls: seq<Line>, id: string, h: nat)
    requires h < |ls|
    ensures OwnsSubTable(ls[h + 1..], id) <==> HasSubTable(ls, id, h)
  {
    hide Classify;
    var after := ls[h + 1..];
    if OwnsSubTable(after, id) {
      var j :| 0 <= j < |after| && IsHeader(after[j]) && id + "." <= after[j].kind.id;
      assert ls[h + 1 + j] == after[j];
    }
    if j :| h < j < |ls| && IsHeader(ls[j]) && id + "." <= ls[j].kind.id {
      assert after[j - h - 1] == ls[j];
    }
  }

  /** The table can be edited: its first header is a plain one, and it has no sub-tables. */
  ghost predicate Editable(ls: seq<Line>, id: string) {
    exists h: nat :: IsHead(ls, id, h) && ls[h].kind.simple && !HasSubTable(ls, id, h)
  }

  /** Every edit is refused exactly where the table is missing or is no plain table without sub-tables. */
  lemma EditsRefused(src: string, id: string, body: string, key: string, value: string)
    ensures var ls := Scan(src);
            var e := if Editable(ls, id) then None
                     else if exists j :: 0 <= j < |ls| && IsHeader(ls[j]) && ls[j].kind.id == id then Some(Unsupported)
                     else Some(NotFound);
            && ErrorOf(Body(src, id)) == e && ErrorOf(ReplacedBody(src, id, body)) == e
            && ErrorOf(SetKey(src, id, key, value)) == e && ErrorOf(Removed(src, id)) == e
  {
    hide Classify, IsTable, HasSubTable, Lines;
    var ls := Scan(src);
    TableLocated(ls, id);
    BodyLinesLocated(ls, id);
    match Locate(ls, id) {
      case Ok(b) =>
        assert IsHead(ls, id, b.head) by { IsTableHead(ls, id, b.first, b.head, b.end); }
      case Err(NotFound) =>
      case Err(Unsupported) =>
        var h: nat :| IsHead(ls, id, h) && (!ls[h].kind.simple || HasSubTable(ls, id, h));
        forall h': nat | IsHead(ls, id, h') ensures h' == h { HeadUnique(ls, id, h, h'); }
    }
  }

  function ErrorOf<T>(r: Result<T>): Option<Error> {
    match r case Ok(_) => None case Err(e) => Some(e)
  }

  lemma IsTableHead(ls: seq<Line>, id: string, i: nat, h: nat, e: nat)
    requires IsTable(ls, id, i, h, e)
    ensures IsHead(ls, id, h)
  {
  }

  lemma LeadAt(ls: seq<Line>, h: nat)
    requires h < |ls|
    ensures IsLead(ls, BlockAt(ls, h).first, h)
  {
    hide Classify, Keep;
    var run := RunStart(ls, h);
    if h > 0 && IsComment(ls[h - 1]) { assert run < h; }
  }

  lemma BodyAt(ls: seq<Line>, h: nat)
    requires h < |ls|
    ensures IsBody(ls, h, BlockAt(ls, h).end)
  {
    hide Classify, Keep, IsHeader, IsBlank, IsComment;
    var region := Region(ls, h);
    var k := Keep(region);
    var e, z := h + 1 + k, h + 1 + |region|;
    KeepLeavesTrailing(region);
    LooseIsTrailing(ls, region, h, k);
    KeepsItself(region);
    forall i | h < i < e ensures !IsLoose(ls, i, e) {
      if IsLoose(ls, i, e) { LooseDetached(ls, region, h, e, i); }
    }
    RegionEnds(ls, h);
    assert IsLoose(ls, e, z);
    forall j | h < j < e ensures !IsHeader(ls[j]) { assert region[j - h - 1] == ls[j]; }
  }

  lemma RegionEnds(ls: seq<Line>, h: nat)
    requires h < |ls|
    ensures var z := h + 1 + |Region(ls, h)|; z <= |ls| && (z < |ls| ==> IsHeader(ls[z]))
  {
    hide Classify;
  }

  lemma LooseIsTrailing(ls: seq<Line>, region: seq<Line>, h: nat, k: nat)
    requires h + 1 + |region| <= |ls| && region == ls[h + 1..h + 1 + |region|] && k <= |region|
    requires Trailing(region[k..])
    ensures IsLoose(ls, h + 1 + k, h + 1 + |region|)
  {
    hide Classify, IsBlank, IsComment;
    var t := region[k..];
    forall j | h + 1 + k <= j < h + 1 + |region| ensures ls[j] == t[j - h - 1 - k] && IsFiller(ls[j]) {}
  }

  lemma KeepsItself(region: seq<Line>)
    ensures !EndsDetached(region[..Keep(region)])
  {
    hide Classify, EndsDetached;
    var k := Keep(region);
    KeepLeavesTrailing(region);
    assert region == region[..k] + region[k..];
    KeepIgnoresTrailing(region[..k], region[k..]);
    KeepsAll(region[..k]);
  }

  lemma LooseDetached(ls: seq<Line>, region: seq<Line>, h: nat, e: nat, i: nat)
    requires h < e <= h + 1 + |region| <= |ls| && region == ls[h + 1..h + 1 + |region|]
    requires h < i < e && IsLoose(ls, i, e)
    ensures EndsDetached(region[..e - h - 1])
  {
    hide Classify, IsBlank, IsComment;
    var t := region[..e - h - 1][i - h - 1..];
    forall j | 0 <= j < |t| ensures t[j] == ls[i + j] && IsFiller(t[j]) {}
    assert Trailing(region[..e - h - 1][i - h - 1..]);
  }

  /** There is only one such place. */
  lemma TableUnique(ls: seq<Line>, id: string, i: nat, h: nat, e: nat, i': nat, h': nat, e': nat)
    requires IsTable(ls, id, i, h, e) && IsTable(ls, id, i', h', e')
    ensures i == i' && h == h' && e == e'
  {
    hide Classify, IsHeader, IsBlank, IsComment;
    HeadUnique(ls, id, h, h');
    LeadUnique(ls, h, i, i');
    BodyUnique(ls, h, e, e');
    BodyUnique(ls, h, e', e);
  }

  lemma HeadUnique(ls: seq<Line>, id: string, h: nat, h': nat)
    requires IsHead(ls, id, h) && IsHead(ls, id, h')
    ensures h == h'
  {
  }

  lemma LeadUnique(ls: seq<Line>, h: nat, i: nat, i': nat)
    requires h <= |ls| && IsLead(ls, i, h) && IsLead(ls, i', h)
    ensures i == i'
  {
    hide IsComment;
  }

  lemma BodyUnique(ls: seq<Line>, h: nat, e: nat, e': nat)
    requires IsBody(ls, h, e) && IsBody(ls, h, e')
    ensures e >= e'
  {
    hide Classify, IsHeader, IsBlank, IsComment;
    var z :| e <= z <= |ls| && IsLoose(ls, e, z) && (z < |ls| ==> IsHeader(ls[z]));
    if e <= e' <= z { LoosePart(ls, e, z, e'); }
  }

  lemma LoosePart(ls: seq<Line>, e: nat, z: nat, k: nat)
    requires e <= k <= z <= |ls| && IsLoose(ls, e, z)
    ensures IsLoose(ls, e, k)
  {
  }

  // ----- what the edits keep

  /** Text without the white space at its end. */
  predicate IsTrimmedTo(s: string, x: string) {
    x <= s && (forall i :: |x| <= i < |s| ==> s[i] in {' ', '\t', '\r', '\n'})
    && (x != "" ==> x[|x| - 1] !in {' ', '\t', '\r', '\n'})
  }

  lemma TrimsTo(s: string)
    ensures IsTrimmedTo(s, TrimRight(s, SPACE))
  {
  }

  /**
   * Removing a table takes out one run of lines: its lead, its header, its body, and one blank line if one follows.
   * Every other line stays where it is, byte for byte, up to white space that comes to stand at the end of the file.
   */
  lemma RemoveKeeps(src: string, id: string) returns (i: nat, h: nat, e: nat)
    requires Removed(src, id).Ok?
    ensures IsTable(Scan(src), id, i, h, e)
    ensures var ls := Scan(src);
            var past := if e < |ls| && IsBlank(ls[e]) then e + 1 else e;
            var before, after, out := Concat(ls[..i]), Concat(ls[past..]), Removed(src, id).value;
            && src == before + Concat(ls[i..past]) + after
            && (after != "" ==> out == before + after)
            && (after == "" ==> exists x :: IsTrimmedTo(before, x) && out == x + DominantEol(src))
  {
    hide Classify, IsTable, TrimRight, DominantEol, Lines, Locate, Concat, IsBlank, IsTrimmedTo, Removed;
    i, h, e := RemovedIs(src, id);
    var before := Concat(Scan(src)[..i]);
    TrimsTo(before);
    FileParts(src, i, if e < |Scan(src)| && IsBlank(Scan(src)[e]) then e + 1 else e);
  }

  lemma RemovedIs(src: string, id: string) returns (i: nat, h: nat, e: nat)
    requires Removed(src, id).Ok?
    ensures i <= h < e <= |Scan(src)| && IsTable(Scan(src), id, i, h, e)
    ensures var ls := Scan(src);
            var before, after := Concat(ls[..i]), Concat(ls[if e < |ls| && IsBlank(ls[e]) then e + 1 else e..]);
            Removed(src, id) == Ok(if after == "" then TrimRight(before, SPACE) + DominantEol(src) else before + after)
  {
    hide Classify, IsTable, TrimRight, DominantEol, Lines, Locate, Concat, IsBlank;
    var b := Locate(Scan(src), id).value;
    i, h, e := b.first, b.head, b.end;
    TableLocated(Scan(src), id);
  }

  /** Comments from the top of the file down to the header are the file's own: removing the first table keeps them. */
  lemma PreambleKept(src: string, id: string, h: nat)
    requires Removed(src, id).Ok? && IsHead(Scan(src), id, h)
    requires forall j :: 0 <= j < h ==> IsComment(Scan(src)[j])
    ensures exists x :: IsTrimmedTo(Concat(Scan(src)[..h]), x) && x <= Removed(src, id).value
  {
    hide Classify, IsComment, IsHeader, TrimRight, DominantEol, Concat, Removed, IsTrimmedTo, Lines;
    var ls := Scan(src);
    var i, h', e := RemoveKeeps(src, id);
    HeadUnique(ls, id, h, h');
    LeadReachesTop(ls, i, h);
    var before, out := Concat(ls[..h]), Removed(src, id).value;
    TrimsTo(before);
    PrefixOfBoth(before, TrimRight(before, SPACE), out);
  }

  lemma LeadReachesTop(ls: seq<Line>, i: nat, h: nat)
    requires h <= |ls| && IsLead(ls, i, h) && forall j :: 0 <= j < h ==> IsComment(ls[j])
    ensures i == h
  {
    hide IsComment;
  }

  lemma PrefixOfBoth(before: string, x: string, out: string)
    requires x <= before
    ensures before <= out ==> x <= out
  {
  }

  /** Nothing but white space, as Unicode counts it. */
  predicate AllWhite(s: string) {
    forall i :: 0 <= i < |s| ==>
      s[i] in {'\t', '\n', '\U{B}', '\U{C}', '\r', ' ', '\U{85}', '\U{A0}', '\U{1680}', '\U{2000}', '\U{2001}',
               '\U{2002}', '\U{2003}', '\U{2004}', '\U{2005}', '\U{2006}', '\U{2007}', '\U{2008}', '\U{2009}',
               '\U{200A}', '\U{2028}', '\U{2029}', '\U{202F}', '\U{205F}', '\U{3000}'}
  }

  lemma VoidIsWhite(s: string)
    ensures IsVoid(s) <==> AllWhite(s)
  {
  }

  /**
   * Appending leaves the file as it is up to the white space at its end, and puts the block behind one blank line, in
   * the file's line ending and ended by it. A file of white space is replaced.
   */
  lemma AppendKeeps(src: string, block: string) returns (stored: string)
    ensures var eol := DominantEol(src);
            var b := Normalise(block, eol);
            && (stored == b || stored == b + eol) && (stored == b <==> |b| >= |eol| && b[|b| - |eol|..] == eol)
            && if AllWhite(src) then Appended(src, block) == stored
               else exists x :: IsTrimmedTo(src, x) && Appended(src, block) == x + eol + eol + stored
  {
    hide DominantEol, Normalise, IsVoid, TrimRight, AllWhite;
    VoidIsWhite(src);
    stored := StoredBlock(src, block);
    TrimsTo(src);
  }

  /** Replacing a table's body replaces that text and no other. */
  lemma ReplaceKeeps(src: string, id: string, body: string) returns (i: nat, h: nat, e: nat)
    requires ReplacedBody(src, id, body).Ok?
    ensures IsTable(Scan(src), id, i, h, e)
    ensures var ls := Scan(src);
            var before, after := Concat(ls[..h + 1]), Concat(ls[e..]);
            && Body(src, id) == Ok(Concat(ls[h + 1..e]))
            && src == before + Concat(ls[h + 1..e]) + after
            && ReplacedBody(src, id, body) == Ok(before + Normalise(body, DominantEol(src)) + after)
  {
    hide Classify, IsTable, Normalise, DominantEol;
    var ls := Scan(src);
    var b := Locate(ls, id).value;
    i, h, e := b.first, b.head, b.end;
    TableLocated(ls, id);
    BodyIs(src, id);
    FileParts(src, h + 1, e);
  }

  /** Line k is the first that assigns the key, and its value goes on to line m. */
  predicate IsEntry(ls: seq<Line>, key: string, k: nat, m: nat) {
    && k < m <= |ls| && KeyAt(ls[k]) == Some(key) && (forall j :: 0 <= j < k ==> KeyAt(ls[j]) != Some(key))
    && (forall j :: k < j < m ==> !ls[j].structural) && (m < |ls| ==> ls[m].structural)
  }

  /** Text with one key set: the lines of its first assignment are replaced, or a line is put on top if it has none. */
  ghost predicate SetIn(body: string, key: string, value: string, eol: string, out: string) {
    var ls := Scan(body);
    if exists k :: 0 <= k < |ls| && KeyAt(ls[k]) == Some(key) then
      exists k: nat, m: nat :: IsEntry(ls, key, k, m) &&
        var old' := Concat(ls[k..m]);
        && body == Concat(ls[..k]) + old' + Concat(ls[m..])
        && out == Concat(ls[..k]) + (key + " = " + value + if old' != "" && old'[|old'| - 1] == '\n' then eol else "")
                  + Concat(ls[m..])
    else out == key + " = " + value + eol + body
  }

  lemma SetInIs(body: string, key: string, value: string, eol: string)
    ensures SetIn(body, key, value, eol, SetInBody(body, key, value, eol))
  {
    hide Classify, KeyAt, Lines;
    var ls := Scan(body);
    var k := FindKey(ls, key);
    FindKeyFirst(ls, key);
    if k < |ls| {
      var m := LogicalEnd(ls, k);
      EndFacts(ls, k);
      FileParts(body, k, m);
      SuffixIsWhole(Concat(ls[k..m]));
      assert IsEntry(ls, key, k, m);
    }
  }

  /** Setting a key changes the table's body so, and no other text. */
  lemma SetKeyKeeps(src: string, id: string, key: string, value: string) returns (i: nat, h: nat, e: nat, n: string)
    requires SetKey(src, id, key, value).Ok?
    ensures IsTable(Scan(src), id, i, h, e)
    ensures var ls := Scan(src);
            var before, body, after := Concat(ls[..h + 1]), Concat(ls[h + 1..e]), Concat(ls[e..]);
            && src == before + body + after && SetKey(src, id, key, value) == Ok(before + n + after)
            && SetIn(body, key, value, DominantEol(src), n)
  {
    hide Classify, IsTable, SetIn, SetInBody, DominantEol;
    var ls := Scan(src);
    var b := Locate(ls, id).value;
    i, h, e := b.first, b.head, b.end;
    TableLocated(ls, id);
    FileParts(src, h + 1, e);
    n := SetInBody(Concat(ls[h + 1..e]), key, value, DominantEol(src));
    SetInIs(Concat(ls[h + 1..e]), key, value, DominantEol(src));
  }
}
