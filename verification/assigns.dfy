/**
 The assignments of a block body: a structural `key = value` line together with the continuation lines of its value.

 Settings lists their names and values in order. It is additive over any cut before a structural line, so an edit of
 whole assignments is an edit of the list.
 */
module Assigns {
  import opened Wrappers
  import opened Text
  import opened Quotes
  import opened Headers
  import opened Lexer
  import opened Tables

  /** keyOf: the bare key of a `key = value` line. */
  function KeyOf(raw: string): Option<string> {
    var e := First(raw, '=');
    var k := Trim(raw[..e], BLANK);
    if e == |raw| || k == "" || !KeyChars(k) then None else Some(k)
  }

  predicate KeyChars(k: string) {
    forall i :: 0 <= i < |k| ==> k[i] !in {'"', '\'', '.', '[', ']', '#'}
  }

  /** The trimmed text after the first '='. */
  function ValueOf(text: string): string {
    Trim(Drop(text, First(text, '=') + 1), SPACE)
  }

  /**
   * An assignment by its characters: the key is what stands before the first equals sign without the blanks around it,
   * unless it is quoted, dotted or no key at all, and the value is what stands after it without the white space around.
   */
  lemma AssignmentReads(left: string, key: string, mid: string, before: string, value: string, after: string)
    requires AllIn(left, {' ', '\t'}) && AllIn(mid, {' ', '\t'})
    requires AllIn(before, {' ', '\t', '\r', '\n'}) && AllIn(after, {' ', '\t', '\r', '\n'})
    requires '=' !in key && (key == "" || (key[0] !in {' ', '\t'} && key[|key| - 1] !in {' ', '\t'}))
    requires value == "" || (value[0] !in {' ', '\t', '\r', '\n'} && value[|value| - 1] !in {' ', '\t', '\r', '\n'})
    ensures var text := left + key + mid + ("=" + (before + value + after));
            && ValueOf(text) == value
            && KeyOf(text) ==
               if key != "" && forall i :: 0 <= i < |key| ==> key[i] !in {'"', '\'', '.', '[', ']', '#'} then Some(key)
               else None
  {
    hide Trim, First, AllIn, KeyOf, ValueOf;
    AssignmentParts(left, key, mid, before, value, after);
    KeyCharsAre(key);
  }

  lemma KeyCharsAre(key: string)
    ensures KeyChars(key) <==> forall i :: 0 <= i < |key| ==> key[i] !in {'"', '\'', '.', '[', ']', '#'}
  {
  }

  lemma AssignmentParts(left: string, key: string, mid: string, before: string, value: string, after: string)
    requires AllIn(left, BLANK) && AllIn(mid, BLANK) && AllIn(before, SPACE) && AllIn(after, SPACE)
    requires '=' !in key && (key == "" || (key[0] !in BLANK && key[|key| - 1] !in BLANK))
    requires value == "" || (value[0] !in SPACE && value[|value| - 1] !in SPACE)
    ensures var text := left + key + mid + ("=" + (before + value + after));
            ValueOf(text) == value && KeyOf(text) == if key != "" && KeyChars(key) then Some(key) else None
  {
    hide Trim, First, KeyChars;
    var lhs, rhs := left + key + mid, before + value + after;
    var text := lhs + ("=" + rhs);
    NoEquals(left);
    NoEquals(mid);
    assert '=' !in lhs;
    FirstEquals(lhs, rhs);
    assert text[..|lhs|] == lhs && Drop(text, |lhs| + 1) == rhs;
    TrimUnique(left, key, mid, BLANK);
    TrimUnique(before, value, after, SPACE);
  }

  lemma NoEquals(s: string)
    requires AllIn(s, BLANK)
    ensures '=' !in s
  {
  }

  lemma FirstEquals(lhs: string, rhs: string)
    requires '=' !in lhs
    ensures First(lhs + ("=" + rhs), '=') == |lhs|
  {
    var s := lhs + ("=" + rhs);
    assert s[|lhs|] == '=' && forall i :: 0 <= i < |lhs| ==> s[i] == lhs[i];
    hide First;
    assert First(s, '=') <= |lhs|;
  }

  /** Without an equals sign nothing is assigned. */
  lemma NoAssignment(text: string)
    requires '=' !in text
    ensures KeyOf(text) == None
  {
    hide Trim, First;
  }

  /** The key that line l assigns, if it is a structural assignment. */
  function KeyAt(l: Line): Option<string> {
    if l.structural && l.kind.Other? then KeyOf(l.raw) else None
  }

  /** How many continuation lines ls starts with. */
  function ContLen(ls: seq<Line>): (n: nat)
    ensures n <= |ls| && forall i :: 0 <= i < n ==> !ls[i].structural
    ensures n < |ls| ==> ls[n].structural
  {
    if ls == [] || ls[0].structural then 0 else 1 + ContLen(ls[1..])
  }

  lemma AllContinue(ls: seq<Line>)
    requires forall k :: 0 <= k < |ls| ==> !ls[k].structural
    ensures ContLen(ls) == |ls|
  {
  }

  /** logicalEnd: one past the last line of the value that line i starts. */
  function LogicalEnd(ls: seq<Line>, i: nat): (e: nat)
    requires i < |ls|
    ensures i < e <= |ls|
  {
    i + 1 + ContLen(ls[i + 1..])
  }

  /** What the entry that ls starts with assigns, if anything. */
  function FirstSetting(ls: seq<Line>): seq<(string, string)>
    requires ls != []
  {
    match KeyAt(ls[0])
    case None => []
    case Some(k) => [(k, ValueOf(Concat(ls[..LogicalEnd(ls, 0)])))]
  }

  /** The names and values assigned, in order. */
  function Settings(ls: seq<Line>): seq<(string, string)> {
    if ls == [] then [] else FirstSetting(ls) + Settings(ls[LogicalEnd(ls, 0)..])
  }

  lemma {:induction false} ContLenAppend(a: seq<Line>, b: seq<Line>)
    requires b == [] || b[0].structural
    ensures ContLen(a + b) == ContLen(a)
  {
    hide Classify, KeyOf;
    if a == [] {
      assert a + b == b;
    } else {
      assert (a + b)[0] == a[0] && (a + b)[1..] == a[1..] + b;
      ContLenAppend(a[1..], b);
    }
  }

  lemma FirstAppend(a: seq<Line>, b: seq<Line>)
    requires a != [] && (b == [] || b[0].structural)
    ensures LogicalEnd(a + b, 0) == LogicalEnd(a, 0) && FirstSetting(a + b) == FirstSetting(a)
    ensures (a + b)[LogicalEnd(a, 0)..] == a[LogicalEnd(a, 0)..] + b
  {
    hide Classify, KeyAt, ValueOf, ContLen, Concat;
    assert (a + b)[0] == a[0] && (a + b)[1..] == a[1..] + b;
    ContLenAppend(a[1..], b);
    TakeConcat(a, b, LogicalEnd(a, 0));
  }

  lemma {:induction false} SettingsAppend(a: seq<Line>, b: seq<Line>)
    requires b == [] || b[0].structural
    ensures Settings(a + b) == Settings(a) + Settings(b)
    decreases |a|
  {
    hide Classify, KeyOf;
    if a == [] {
      assert a + b == b;
    } else {
      var n := LogicalEnd(a, 0);
      FirstAppend(a, b);
      SettingsAppend(a[n..], b);
      ConcatAssoc(FirstSetting(a), Settings(a[n..]), Settings(b));
    }
  }

  lemma {:induction false} SettingsOfFiller(t: seq<Line>)
    requires AllFiller(t)
    ensures Settings(t) == []
    decreases |t|
  {
    hide Classify, KeyOf;
    if t != [] {
      assert IsFiller(t[0]) && KeyAt(t[0]) == None;
      SettingsOfFiller(t[LogicalEnd(t, 0)..]);
    }
  }

  // ----- the code

  datatype KeyLine = KeyLine(name: string, value: string, start: nat, end: nat)

  /** What KeyLines reports for line i. */
  function KeyLineAt(ls: seq<Line>, i: nat): seq<KeyLine>
    requires i < |ls|
  {
    match KeyAt(ls[i])
    case None => []
    case Some(k) =>
      var e := LogicalEnd(ls, i);
      [KeyLine(k, ValueOf(Concat(ls[i..e])), Offset(ls, i), Offset(ls, e))]
  }

  function KeyLinesTo(ls: seq<Line>, i: nat): seq<KeyLine>
    requires i <= |ls|
  {
    if i == 0 then [] else KeyLinesTo(ls, i - 1) + KeyLineAt(ls, i - 1)
  }

  function KeyLinesOf(body: string): seq<KeyLine> {
    KeyLinesTo(Scan(body), |Scan(body)|)
  }

  method LogicalEndOf(ls: seq<Line>, i: nat) returns (e: nat)
    requires i < |ls|
    ensures e == LogicalEnd(ls, i)
  {
    hide Classify, KeyOf;
    e := i + 1;
    while e < |ls| && !ls[e].structural
      invariant i < e <= |ls|
      invariant LogicalEnd(ls, i) == e + ContLen(ls[e..])
    {
      assert ls[e..][1..] == ls[e + 1..];
      e := e + 1;
    }
  }

  method KeyLines(body: string) returns (out: seq<KeyLine>)
    ensures out == KeyLinesOf(body)
  {
    hide Classify, KeyOf;
    var ls := ScanLines(body);
    out := [];
    for i := 0 to |ls|
      invariant out == KeyLinesTo(ls, i)
    {
      var line := KeyLineOf(body, ls, i);
      out := out + line;
    }
  }

  method KeyLineOf(body: string, ls: seq<Line>, i: nat) returns (line: seq<KeyLine>)
    requires ls == Scan(body) && i < |ls|
    ensures line == KeyLineAt(ls, i)
  {
    hide Classify, KeyOf;
    if !ls[i].structural || !ls[i].kind.Other? {
      return [];
    }
    var name := KeyOf(ls[i].raw);
    if name.None? {
      return [];
    }
    var e := LogicalEndOf(ls, i);
    Slice(body, i, e);
    var text := body[Offset(ls, i)..Offset(ls, e)];
    line := [KeyLine(name.value, ValueOf(text), Offset(ls, i), Offset(ls, e))];
  }

  function Pairs(kls: seq<KeyLine>): seq<(string, string)> {
    seq(|kls|, i requires 0 <= i < |kls| => (kls[i].name, kls[i].value))
  }

  /** KeyLines reports exactly the settings, in order. */
  lemma KeyLinesAreSettings(body: string)
    ensures Pairs(KeyLinesOf(body)) == Settings(Scan(body))
  {
    hide Classify, KeyOf;
    var ls := Scan(body);
    KeyLinesUpTo(ls, 0);
    assert ls[0..] == ls;
  }

  lemma {:induction false} KeyLinesUpTo(ls: seq<Line>, i: nat)
    requires i <= |ls| && (i < |ls| ==> ls[i].structural)
    ensures Pairs(KeyLinesTo(ls, |ls|)) == Pairs(KeyLinesTo(ls, i)) + Settings(ls[i..])
    decreases |ls| - i
  {
    hide Classify, KeyAt, ValueOf, LogicalEnd, KeyLineAt, Pairs;
    if i < |ls| {
      var e := LogicalEnd(ls, i);
      EndFacts(ls, i);
      Continuations(ls, i + 1, e);
      KeyLinesUpTo(ls, e);
      PairsAppend(KeyLinesTo(ls, i), KeyLineAt(ls, i));
      SettingAt(ls, i);
      ConcatAssoc(Pairs(KeyLinesTo(ls, i)), Pairs(KeyLineAt(ls, i)), Settings(ls[e..]));
    }
  }

  lemma PairsAppend(a: seq<KeyLine>, b: seq<KeyLine>)
    ensures Pairs(a + b) == Pairs(a) + Pairs(b)
  {
  }

  lemma EndFacts(ls: seq<Line>, i: nat)
    requires i < |ls|
    ensures var e := LogicalEnd(ls, i);
            (forall k :: i < k < e ==> !ls[k].structural) && (e < |ls| ==> ls[e].structural)
  {
    hide Classify, KeyOf;
    var rest := ls[i + 1..];
    assert forall k :: i < k < |ls| ==> ls[k] == rest[k - i - 1];
  }

  lemma KeyLinePair(ls: seq<Line>, i: nat)
    requires i < |ls| && LogicalEnd(ls[i..], 0) == LogicalEnd(ls, i) - i
    ensures Pairs(KeyLineAt(ls, i)) == FirstSetting(ls[i..])
  {
    hide Classify, KeyOf, ValueOf, ContLen;
    DropDrop(ls, i, LogicalEnd(ls, i));
  }

  lemma SettingAt(ls: seq<Line>, i: nat)
    requires i < |ls|
    ensures Settings(ls[i..]) == Pairs(KeyLineAt(ls, i)) + Settings(ls[LogicalEnd(ls, i)..])
  {
    hide Classify, KeyAt, ValueOf, ContLen, Concat, Pairs, KeyLineAt, FirstSetting;
    var e := LogicalEnd(ls, i);
    DropDrop(ls, i, i + 1);
    DropDrop(ls, i, e);
    assert LogicalEnd(ls[i..], 0) == e - i;
    KeyLinePair(ls, i);
  }

  /** Continuation lines report nothing. */
  lemma {:induction false} Continuations(ls: seq<Line>, i: nat, e: nat)
    requires i <= e <= |ls| && forall k :: i <= k < e ==> !ls[k].structural
    ensures KeyLinesTo(ls, e) == KeyLinesTo(ls, i)
    decreases e - i
  {
    hide Classify, KeyOf;
    if i < e {
      Continuations(ls, i, e - 1);
      assert !ls[e - 1].structural;
    }
  }
}
