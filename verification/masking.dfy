/**
 Hiding credentials from the dashboard and putting them back.

 Both directions rewrite whole assignments: Rewrite(f) turns `name = value` into `name = v` wherever f(name, value) is
 Some(v) and copies everything else. Rewriting is compositional, which is what makes a round trip of two rewrites a
 third one.
 */
module Masking {
  import opened Wrappers
  import opened Text
  import opened Quotes
  import opened Headers
  import opened Lexer
  import opened Tables
  import opened Edits
  import opened Assigns
  import opened Blocks

  type Rule = (string, string) -> Option<string>

  const MASKED_SECRET := "\"\U{2022}\U{2022}\U{2022}\U{2022}\U{2022}\U{2022}\U{2022}\U{2022}\""

  function Lower(s: string): string {
    seq(|s|, i requires 0 <= i < |s| => if 'A' <= s[i] <= 'Z' then ((s[i] as int) + 32) as char else s[i])
  }

  predicate Contains(s: string, part: string) {
    exists i :: 0 <= i <= |s| && part <= s[i..]
  }

  /** secretish: the name of a credential. */
  predicate Secretish(name: string) {
    var n := Lower(name);
    Contains(n, "password") || Contains(n, "token") || Contains(n, "secret") || Contains(n, "credential")
    || Contains(n, "api_key") || Contains(n, "apikey") || Contains(n, "passphrase")
  }

  predicate QuotedValue(v: string) {
    v != "" && (v[0] == '"' || v[0] == '\'')
  }

  /** What maskSecrets shows for an assignment. */
  function MaskRule(name: string, value: string): Option<string> {
    if Secretish(name) && QuotedValue(value) && value != MASKED_SECRET then Some(MASKED_SECRET) else None
  }

  /** What unmaskSecrets puts back: the value on disk of anything left masked. */
  function UnmaskRule(originals: map<string, string>): Rule {
    (name, value) => if value == MASKED_SECRET && name in originals then Some(originals[name]) else None
  }

  // ----- the code

  function Rewritten(name: string, value: string): string {
    name + " = " + value + LF
  }

  /** The loop over the assignments that both functions are: copy up to an assignment, write its replacement. */
  function RewriteFrom(body: string, kls: seq<KeyLine>, last: nat, f: Rule): string
    requires last <= |body| && InOrder(kls, last, |body|)
  {
    if kls == [] then body[last..]
    else
      match f(kls[0].name, kls[0].value)
      case None => RewriteFrom(body, kls[1..], last, f)
      case Some(v) => body[last..kls[0].start] + Rewritten(kls[0].name, v) + RewriteFrom(body, kls[1..], kls[0].end, f)
  }

  /** Assignments in order between two offsets. */
  predicate InOrder(kls: seq<KeyLine>, last: nat, end: nat) {
    && (forall i :: 0 <= i < |kls| ==> last <= kls[i].start <= kls[i].end <= end)
    && (forall i, j :: 0 <= i < j < |kls| ==> kls[i].end <= kls[j].start)
  }

  predicate NotBefore(kls: seq<KeyLine>, start: nat) {
    forall i :: 0 <= i < |kls| ==> kls[i].start >= start
  }

  /** The loop body shared by maskSecrets and unmaskSecrets. */
  method Rewrite(body: string, kls: seq<KeyLine>, f: Rule) returns (out: string)
    requires InOrder(kls, 0, |body|)
    ensures out == RewriteFrom(body, kls, 0, f)
  {
    out := "";
    var last: nat := 0;
    assert kls[0..] == kls;
    for i := 0 to |kls|
      invariant last <= |body| && InOrder(kls[i..], last, |body|)
      invariant RewriteFrom(body, kls, 0, f) == out + RewriteFrom(body, kls[i..], last, f)
    {
      var k := kls[i];
      ghost var rest := kls[i..];
      assert rest[0] == k && rest[1..] == kls[i + 1..];
      match f(k.name, k.value) {
        case None =>
        case Some(v) =>
          var piece := body[last..k.start] + Rewritten(k.name, v);
          SeqAssoc(out, piece, RewriteFrom(body, kls[i + 1..], k.end, f));
          out := out + piece;
          last := k.end;
      }
    }
    out := out + body[last..];
  }

  /** The assignments from line i on. */
  function KeyLinesFrom(ls: seq<Line>, i: nat): seq<KeyLine>
    requires i <= |ls|
    decreases |ls| - i
  {
    if i == |ls| then [] else KeyLineAt(ls, i) + KeyLinesFrom(ls, i + 1)
  }

  lemma {:induction false} KeyLinesSplit(ls: seq<Line>, i: nat)
    requires i <= |ls|
    ensures KeyLinesTo(ls, |ls|) == KeyLinesTo(ls, i) + KeyLinesFrom(ls, i)
    decreases |ls| - i
  {
    hide Classify, KeyLineAt;
    if i < |ls| {
      KeyLinesSplit(ls, i + 1);
      ConcatAssoc(KeyLinesTo(ls, i), KeyLineAt(ls, i), KeyLinesFrom(ls, i + 1));
    }
  }

  /** An entry of the body, rewritten. */
  function RewriteEntry(e: seq<Line>, f: Rule): string
    requires e != []
  {
    match KeyAt(e[0])
    case None => Concat(e)
    case Some(k) =>
      match f(k, ValueOf(Concat(e)))
      case None => Concat(e)
      case Some(v) => Rewritten(k, v)
  }

  /** The lines with every assignment rewritten. */
  function RewriteText(ls: seq<Line>, f: Rule): string {
    if ls == [] then "" else RewriteEntry(ls[..LogicalEnd(ls, 0)], f) + RewriteText(ls[LogicalEnd(ls, 0)..], f)
  }

  lemma {:induction false} KeyLinesInOrder(body: string, i: nat)
    requires i <= |Scan(body)|
    ensures Offset(Scan(body), i) <= |body| && InOrder(KeyLinesFrom(Scan(body), i), Offset(Scan(body), i), |body|)
    decreases |Scan(body)| - i
  {
    hide Classify, Lines, KeyAt, ValueOf, LogicalEnd;
    var ls := Scan(body);
    Slice(body, i, |ls|);
    if i < |ls| {
      KeyLinesInOrder(body, i + 1);
      OffsetMonotone(ls, i, i + 1);
      if KeyAt(ls[i]).Some? {
        EntryInOrder(body, i, LogicalEnd(ls, i));
      }
    }
  }

  /** The next assignment starts no earlier than the end of the one on line i. */
  lemma EntryInOrder(body: string, i: nat, e: nat)
    requires i < |Scan(body)| && e == LogicalEnd(Scan(body), i)
    ensures var ls := Scan(body);
            && Offset(ls, i) <= Offset(ls, e) <= |body|
            && NotBefore(KeyLinesFrom(ls, i + 1), Offset(ls, e))
  {
    hide Classify, Lines, KeyAt, ValueOf, LogicalEnd, KeyLinesFrom;
    EndFacts(Scan(body), i);
    FromSkips(Scan(body), i + 1, e);
    StartsFrom(Scan(body), e);
    Slice(body, i, e);
  }

  lemma {:induction false} StartsFrom(ls: seq<Line>, i: nat)
    requires i <= |ls|
    ensures NotBefore(KeyLinesFrom(ls, i), Offset(ls, i))
    decreases |ls| - i
  {
    hide Classify, KeyAt, ValueOf, LogicalEnd;
    if i < |ls| {
      StartsFrom(ls, i + 1);
      OffsetMonotone(ls, i, i + 1);
    }
  }

  /** The loop rewrites the entries: from line i on, it copies what is left over and then does what RewriteText does. */
  lemma {:induction false} LoopRewrites(body: string, i: nat, last: nat, f: Rule)
    requires i <= |Scan(body)| && last <= Offset(Scan(body), i) && (i < |Scan(body)| ==> Scan(body)[i].structural)
    ensures InOrder(KeyLinesFrom(Scan(body), i), last, |body|) && Offset(Scan(body), i) <= |body|
    ensures RewriteFrom(body, KeyLinesFrom(Scan(body), i), last, f) ==
              body[last..Offset(Scan(body), i)] + RewriteText(Scan(body)[i..], f)
    decreases |Scan(body)| - i
  {
    hide Classify, Lines, KeyAt, ValueOf, LogicalEnd, RewriteText, RewriteFrom, KeyLinesFrom;
    var ls := Scan(body);
    KeyLinesInOrder(body, i);
    if i == |ls| {
      LoopEnds(body, last, f);
    } else {
      var e := LogicalEnd(ls, i);
      EndFacts(ls, i);
      OffsetMonotone(ls, i, e);
      KeyLinesInOrder(body, e);
      LoopRewrites(body, e, last, f);
      LoopRewrites(body, e, Offset(ls, e), f);
      FromSkips(ls, i + 1, e);
      Slice(body, i, e);
      LoopStep(body, i, e, last, f);
    }
  }

  lemma LoopEnds(body: string, last: nat, f: Rule)
    requires last <= Offset(Scan(body), |Scan(body)|)
    ensures var ls := Scan(body);
            && Offset(ls, |ls|) <= |body|
            && InOrder(KeyLinesFrom(ls, |ls|), last, |body|)
            && RewriteFrom(body, KeyLinesFrom(ls, |ls|), last, f) ==
                 body[last..Offset(ls, |ls|)] + RewriteText(ls[|ls|..], f)
  {
    hide Classify, Lines;
    var ls := Scan(body);
    assert ls[..|ls|] == ls;
    LinesSpell(body, NEUTRAL);
  }

  lemma {:induction false} FromSkips(ls: seq<Line>, i: nat, e: nat)
    requires i <= e <= |ls| && forall k :: i <= k < e ==> !ls[k].structural
    ensures KeyLinesFrom(ls, i) == KeyLinesFrom(ls, e)
    decreases e - i
  {
    hide Classify, KeyOf, ValueOf;
    if i < e {
      FromSkips(ls, i + 1, e);
      assert !ls[i].structural;
    }
  }

  /** One entry of LoopRewrites. */
  lemma LoopStep(body: string, i: nat, e: nat, last: nat, f: Rule)
    requires i < |Scan(body)| && e == LogicalEnd(Scan(body), i)
    requires last <= Offset(Scan(body), i) <= Offset(Scan(body), e) <= |body|
    requires KeyLinesFrom(Scan(body), i + 1) == KeyLinesFrom(Scan(body), e)
    requires body[Offset(Scan(body), i)..Offset(Scan(body), e)] == Concat(Scan(body)[i..e])
    requires InOrder(KeyLinesFrom(Scan(body), e), Offset(Scan(body), e), |body|)
    requires InOrder(KeyLinesFrom(Scan(body), i), last, |body|)
    requires forall from | from == last || from == Offset(Scan(body), e) ::
               RewriteFrom(body, KeyLinesFrom(Scan(body), e), from, f) ==
                   body[from..Offset(Scan(body), e)] + RewriteText(Scan(body)[e..], f)
    ensures RewriteFrom(body, KeyLinesFrom(Scan(body), i), last, f) ==
              body[last..Offset(Scan(body), i)] + RewriteText(Scan(body)[i..], f)
  {
    hide Classify, Lines, KeyAt, ValueOf, LogicalEnd, RewriteText, RewriteFrom, KeyLinesFrom, InOrder, Concat;
    var ls := Scan(body);
    var text, rest := Concat(ls[i..e]), RewriteText(ls[e..], f);
    var oi, oe := Offset(ls, i), Offset(ls, e);
    FromStep(ls, i, e);
    TextStep(ls, i, e, f);
    assert body[last..oe] == body[last..oi] + text;
    var kls := KeyLinesFrom(ls, e);
    if KeyAt(ls[i]).None? {
      SeqAssoc(body[last..oi], text, rest);
    } else {
      var k, v := KeyAt(ls[i]).value, ValueOf(text);
      LoopUnfold(body, KeyLine(k, v, oi, oe), kls, last, f);
      if f(k, v).None? {
        SeqAssoc(body[last..oi], text, rest);
      } else {
        assert body[oe..oe] == "" && "" + rest == rest;
        SeqAssoc(body[last..oi], Rewritten(k, f(k, v).value), rest);
      }
    }
  }

  lemma FromStep(ls: seq<Line>, i: nat, e: nat)
    requires i < |ls| && e == LogicalEnd(ls, i) && KeyLinesFrom(ls, i + 1) == KeyLinesFrom(ls, e)
    ensures KeyLinesFrom(ls, i) ==
            (match KeyAt(ls[i])
             case None => KeyLinesFrom(ls, e)
             case Some(k) =>
               [KeyLine(k, ValueOf(Concat(ls[i..e])), Offset(ls, i), Offset(ls, e))] + KeyLinesFrom(ls, e))
  {
    hide Classify, KeyAt, ValueOf, LogicalEnd, Concat;
  }

  lemma TextStep(ls: seq<Line>, i: nat, e: nat, f: Rule)
    requires i < |ls| && e == LogicalEnd(ls, i)
    ensures RewriteText(ls[i..], f) == RewriteEntry(ls[i..e], f) + RewriteText(ls[e..], f)
    ensures ls[i..e] != [] && ls[i..e][0] == ls[i]
  {
    hide Classify, KeyAt, ValueOf, Concat, RewriteEntry, LogicalEnd;
    EndsShift(ls, i);
    DropDrop(ls, i, e);
  }

  lemma EndsShift(ls: seq<Line>, i: nat)
    requires i < |ls|
    ensures LogicalEnd(ls[i..], 0) == LogicalEnd(ls, i) - i && ls[i..] != [] && ls[i..][0] == ls[i]
  {
    hide Classify, ContLen;
    DropDrop(ls, i, i + 1);
  }

  lemma LoopUnfold(body: string, k: KeyLine, kls: seq<KeyLine>, last: nat, f: Rule)
    requires last <= |body| && InOrder([k] + kls, last, |body|)
    ensures InOrder(kls, last, |body|) && InOrder(kls, k.end, |body|) && k.end <= |body| && last <= k.start <= |body|
    ensures RewriteFrom(body, [k] + kls, last, f) ==
            match f(k.name, k.value) {
              case None => RewriteFrom(body, kls, last, f)
              case Some(v) => body[last..k.start] + Rewritten(k.name, v) + RewriteFrom(body, kls, k.end, f)
            }
  {
    var all := [k] + kls;
    assert all[0] == k && all[1..] == kls;
    assert forall i :: 0 <= i < |kls| ==> kls[i] == all[i + 1];
  }

  lemma ScanStart(s: string)
    ensures Scan(s) != [] ==> Scan(s)[0].structural
  {
    hide Classify;
  }

  /** Run over all assignments of a body, the loop rewrites its text. */
  lemma LoopIsRewrite(body: string, f: Rule)
    ensures InOrder(KeyLinesOf(body), 0, |body|)
    ensures RewriteFrom(body, KeyLinesOf(body), 0, f) == RewriteText(Scan(body), f)
  {
    hide Classify, Lines, KeyAt, ValueOf, LogicalEnd, RewriteText, RewriteFrom, InOrder;
    var ls := Scan(body);
    KeyLinesSplit(ls, 0);
    assert ls[..0] == [] && ls[0..] == ls;
    ScanStart(body);
    KeyLinesInOrder(body, 0);
    LoopRewrites(body, 0, 0, f);
    assert KeyLinesOf(body) == KeyLinesFrom(ls, 0);
    assert body[0..0] == "" && "" + RewriteText(ls, f) == RewriteText(ls, f);
  }

  function Masked(body: string): string {
    RewriteText(Scan(body), MaskRule)
  }

  method MaskSecrets(body: string) returns (out: string)
    ensures out == Masked(body)
  {
    hide Secretish, RewriteText, RewriteFrom, InOrder;
    var kls := KeyLines(body);
    LoopIsRewrite(body, MaskRule);
    out := Rewrite(body, kls, MaskRule);
  }

  /** The value of every name; a later assignment of the same name overrides an earlier one. */
  function Originals(ps: seq<(string, string)>): map<string, string> {
    if ps == [] then map[] else Originals(ps[..|ps| - 1])[ps[|ps| - 1].0 := ps[|ps| - 1].1]
  }

  /** What unmaskSecrets returns: None where something was left masked that has no value on disk. */
  function Unmasked(submitted: string, original: string): Option<string> {
    var originals := Originals(Settings(Scan(original)));
    if Orphaned(Settings(Scan(submitted)), originals) then None
    else Some(RewriteText(Scan(submitted), UnmaskRule(originals)))
  }

  /** A setting that was left masked and has no value on disk. */
  predicate Orphaned(ps: seq<(string, string)>, originals: map<string, string>) {
    exists i :: 0 <= i < |ps| && ps[i].1 == MASKED_SECRET && ps[i].0 !in originals
  }

  method OriginalsOf(kls: seq<KeyLine>) returns (originals: map<string, string>)
    ensures originals == Originals(Pairs(kls))
  {
    originals := map[];
    ghost var ps := Pairs(kls);
    for i := 0 to |kls|
      invariant originals == Originals(ps[..i])
    {
      assert ps[..i + 1][..i] == ps[..i];
      originals := originals[kls[i].name := kls[i].value];
    }
    assert ps[..|kls|] == ps;
  }

  method AnyOrphaned(kls: seq<KeyLine>, originals: map<string, string>) returns (any: bool)
    ensures any <==> Orphaned(Pairs(kls), originals)
  {
    for i := 0 to |kls|
      invariant forall k :: 0 <= k < i ==> !(kls[k].value == MASKED_SECRET && kls[k].name !in originals)
    {
      if kls[i].value == MASKED_SECRET && kls[i].name !in originals {
        assert Pairs(kls)[i].1 == MASKED_SECRET && Pairs(kls)[i].0 !in originals;
        return true;
      }
    }
    any := false;
  }

  method UnmaskSecrets(submitted: string, original: string) returns (r: Option<string>)
    ensures r == Unmasked(submitted, original)
  {
    hide Scan, Settings, RewriteText, RewriteFrom, InOrder, Pairs, Originals, Orphaned;
    var kls := KeyLines(original);
    KeyLinesAreSettings(original);
    var originals := OriginalsOf(kls);
    kls := KeyLines(submitted);
    KeyLinesAreSettings(submitted);
    var orphaned := AnyOrphaned(kls, originals);
    if orphaned {
      return None;
    }
    LoopIsRewrite(submitted, UnmaskRule(originals));
    var out := Rewrite(submitted, kls, UnmaskRule(originals));
    r := Some(out);
  }
}
