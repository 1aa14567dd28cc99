/**
 The line scanner of the editor: physical lines, and the string and bracket state carried across them.

 Its key fact is LinesCompose: cut the text after a newline, and the lines of the whole are the lines of the two parts,
 the second scanned in the state the first ends in. Where that state is NEUTRAL the second part is scanned as if it
 stood alone, which is what makes a splice at such a place safe.
 */
module Lexer {
  import opened Wrappers
  import opened Text
  import opened Quotes
  import opened Headers

  /** The multi-line string a position is inside of, if any. */
  datatype Ml = MlNone | MlBasic | MlLiteral

  datatype State = State(ml: Ml, depth: nat)

  const NEUTRAL := State(MlNone, 0)

  const QQQ := "\"\"\""
  const LLL := "'''"

  /** The state after one physical line (or what is left of it). */
  function Advance(s: string, st: State): State
    decreases |s|
  {
    if s == "" then st
    else
      match st.ml
      case MlBasic =>
        if s[0] == '\\' then Advance(Drop(s, 2), st)
        else if QQQ <= s then Advance(s[3..], st.(ml := MlNone))
        else Advance(s[1..], st)
      case MlLiteral =>
        if LLL <= s then Advance(s[3..], st.(ml := MlNone)) else Advance(s[1..], st)
      case MlNone =>
        if s[0] == '#' then st
        else if s[0] == '"' then
          if QQQ <= s then Advance(s[3..], st.(ml := MlBasic)) else Advance(s[1 + BasicLen(s[1..])..], st)
        else if s[0] == '\'' then
          if LLL <= s then Advance(s[3..], st.(ml := MlLiteral)) else Advance(s[1 + LiteralLen(s[1..])..], st)
        else if s[0] == '[' || s[0] == '{' then Advance(s[1..], st.(depth := st.depth + 1))
        else if (s[0] == ']' || s[0] == '}') && st.depth > 0 then Advance(s[1..], st.(depth := st.depth - 1))
        else Advance(s[1..], st)
  }

  lemma AdvanceBasic(s: string, n: nat, st: State)
    requires s != "" && s[0] == '"' && st.ml == MlNone && n == 1 + BasicLen(s[1..])
    ensures Advance(s, st) == if QQQ <= s then Advance(Drop(s, 3), st.(ml := MlBasic)) else Advance(Drop(s, n), st)
  {
  }

  lemma AdvanceLiteral(s: string, n: nat, st: State)
    requires s != "" && s[0] == '\'' && st.ml == MlNone && n == 1 + LiteralLen(s[1..])
    ensures Advance(s, st) == if LLL <= s then Advance(Drop(s, 3), st.(ml := MlLiteral)) else Advance(Drop(s, n), st)
  {
  }

  lemma AdvanceInString(s: string, st: State)
    requires s != "" && st.ml != MlNone
    ensures Advance(s, st) ==
            if st.ml == MlBasic && s[0] == '\\' then Advance(Drop(s, 2), st)
            else if (if st.ml == MlBasic then QQQ else LLL) <= s then Advance(Drop(s, 3), st.(ml := MlNone))
            else Advance(Drop(s, 1), st)
  {
  }

  lemma AdvanceTop(s: string, st: State)
    requires s != "" && st.ml == MlNone && s[0] != '"' && s[0] != '\''
    ensures Advance(s, st) ==
            if s[0] == '#' then st
            else if s[0] == '[' || s[0] == '{' then Advance(Drop(s, 1), st.(depth := st.depth + 1))
            else if (s[0] == ']' || s[0] == '}') && st.depth > 0 then Advance(Drop(s, 1), st.(depth := st.depth - 1))
            else Advance(Drop(s, 1), st)
  {
  }

  lemma DropAgain(s: string, i: nat, n: nat)
    requires i <= |s|
    ensures Drop(s[i..], n) == Drop(s, i + n)
  {
  }

  lemma AdvanceAtEnd(st: State)
    ensures Advance("", st) == st
  {
  }

  method AdvanceLine(raw: string, ml0: Ml, depth0: nat) returns (ml: Ml, depth: nat)
    ensures State(ml, depth) == Advance(raw, State(ml0, depth0))
  {
    hide Advance, BasicLen, LiteralLen;
    ml, depth := ml0, depth0;
    ghost var goal := Advance(raw, State(ml0, depth0));
    var i := 0;
    while i < |raw|
      invariant 0 <= i <= |raw| + 1
      invariant goal == Advance(Drop(raw, i), State(ml, depth))
      decreases |raw| - i
    {
      ghost var s := raw[i..];
      assert s[0] == raw[i] && s[1..] == raw[i + 1..];
      DropAgain(raw, i, 1);
      DropAgain(raw, i, 3);
      if ml == MlBasic {
        AdvanceInString(s, State(ml, depth));
        if raw[i] == '\\' {
          DropAgain(raw, i, 2);
          i := i + 2;
        } else if QQQ <= raw[i..] {
          ml := MlNone;
          i := i + 3;
        } else {
          i := i + 1;
        }
      } else if ml == MlLiteral {
        AdvanceInString(s, State(ml, depth));
        if LLL <= raw[i..] {
          ml := MlNone;
          i := i + 3;
        } else {
          i := i + 1;
        }
      } else if raw[i] == '"' {
        var end := SkipBasic(raw, i);
        AdvanceBasic(s, end - i, State(ml, depth));
        DropAgain(raw, i, end - i);
        if QQQ <= raw[i..] {
          ml := MlBasic;
          i := i + 3;
        } else {
          i := end;
        }
      } else if raw[i] == '\'' {
        var end := SkipLiteral(raw, i);
        AdvanceLiteral(s, end - i, State(ml, depth));
        DropAgain(raw, i, end - i);
        if LLL <= raw[i..] {
          ml := MlLiteral;
          i := i + 3;
        } else {
          i := end;
        }
      } else {
        AdvanceTop(s, State(ml, depth));
        if raw[i] == '#' {
          return;
        } else if raw[i] == '[' || raw[i] == '{' {
          depth := depth + 1;
          i := i + 1;
        } else if raw[i] == ']' || raw[i] == '}' {
          if depth > 0 {
            depth := depth - 1;
          }
          i := i + 1;
        } else {
          i := i + 1;
        }
      }
    }
    AdvanceAtEnd(State(ml, depth));
  }

  // ----- physical lines

  datatype Line = Line(raw: string, structural: bool, kind: Kind)

  /** The length of the first physical line of s, its newline included. */
  function LineLen(s: string): (n: nat)
    requires s != ""
    ensures 0 < n <= |s|
    ensures forall i :: 0 <= i < n - 1 ==> s[i] != '\n'
    ensures n < |s| ==> s[n - 1] == '\n'
  {
    if First(s, '\n') < |s| then First(s, '\n') + 1 else |s|
  }

  function MkLine(raw: string, st: State): Line {
    Line(raw, st == NEUTRAL, if st == NEUTRAL then Classify(raw) else Other)
  }

  /** The physical lines of s when its first character is reached in state st. */
  function Lines(s: string, st: State): seq<Line>
    decreases |s|
  {
    if s == "" then []
    else
      var n := LineLen(s);
      [MkLine(s[..n], st)] + Lines(s[n..], Advance(s[..n], st))
  }

  /** The state in which the end of s is reached. */
  function After(s: string, st: State): State
    decreases |s|
  {
    if s == "" then st
    else
      var n := LineLen(s);
      After(s[n..], Advance(s[..n], st))
  }

  function Scan(src: string): seq<Line> {
    Lines(src, NEUTRAL)
  }

  /** Text that ends outside every string and bracket: what is inserted has to be closed. */
  predicate Closed(s: string) {
    After(s, NEUTRAL) == NEUTRAL
  }

  function Concat(ls: seq<Line>): string {
    if ls == [] then "" else ls[0].raw + Concat(ls[1..])
  }

  lemma {:induction false} ConcatAppend(a: seq<Line>, b: seq<Line>)
    ensures Concat(a + b) == Concat(a) + Concat(b)
  {
    if a == [] {
      assert a + b == b;
    } else {
      ConcatAppend(a[1..], b);
      assert (a + b)[1..] == a[1..] + b && (a + b)[0] == a[0];
      SeqAssoc(a[0].raw, Concat(a[1..]), Concat(b));
    }
  }

  lemma OneRaw(l: Line)
    ensures Concat([l]) == l.raw
  {
    assert Concat([l]) == l.raw + Concat([]);
  }

  lemma TwoRaws(l: Line, m: Line)
    ensures Concat([l, m]) == l.raw + m.raw
  {
    assert [l, m][1..] == [m];
    OneRaw(m);
  }

  /** Scanning loses nothing: the lines spell the text they were scanned from. */
  lemma {:induction false} LinesSpell(s: string, st: State)
    ensures Concat(Lines(s, st)) == s
    decreases |s|
  {
    if s != "" {
      var n := LineLen(s);
      LinesSpell(s[n..], Advance(s[..n], st));
      var ls := Lines(s, st);
      assert ls[1..] == Lines(s[n..], Advance(s[..n], st));
      assert s == s[..n] + s[n..];
    }
  }

  lemma LineLenAppend(a: string, b: string)
    requires a != "" && Whole(a)
    ensures LineLen(a + b) == LineLen(a)
  {
    var n := LineLen(a);
    assert (a + b)[n - 1] == a[n - 1] == '\n';
    assert forall i :: 0 <= i < n - 1 ==> (a + b)[i] == a[i];
    assert First(a + b, '\n') == n - 1;
  }

  /** The scanner is compositional at every line boundary. */
  lemma {:induction false} LinesCompose(a: string, b: string, st: State)
    requires Whole(a)
    ensures Lines(a + b, st) == Lines(a, st) + Lines(b, After(a, st))
    ensures After(a + b, st) == After(b, After(a, st))
    decreases |a|
  {
    if a == "" {
      assert a + b == b;
    } else {
      var n := LineLen(a);
      LineLenAppend(a, b);
      assert (a + b)[..n] == a[..n] && (a + b)[n..] == a[n..] + b;
      LinesCompose(a[n..], b, Advance(a[..n], st));
    }
  }

  lemma SingleLine(raw: string, st: State)
    requires raw != "" && LineLen(raw) == |raw|
    ensures Lines(raw, st) == [MkLine(raw, st)]
    ensures After(raw, st) == Advance(raw, st)
  {
    assert raw[..|raw|] == raw && raw[|raw|..] == "";
  }

  /** The first physical line of a text is a line of its own. */
  lemma FirstLine(s: string)
    requires s != ""
    ensures LineLen(s[..LineLen(s)]) == LineLen(s)
  {
    var n := LineLen(s);
    var f := First(s[..n], '\n');
    assert f < n ==> s[..n][f] == s[f];
    assert First(s, '\n') < n ==> s[..n][First(s, '\n')] == '\n';
  }

  /**
   Cutting at line k gives two texts, the second scanned in the state the first ends in. Where a structural line starts
   that state is NEUTRAL.
   */
  lemma {:induction false} Cut(s: string, st: State, k: nat) returns (a: string, b: string)
    requires k <= |Lines(s, st)|
    ensures s == a + b
    ensures Lines(a, st) == Lines(s, st)[..k] && Lines(b, After(a, st)) == Lines(s, st)[k..]
    ensures After(s, st) == After(b, After(a, st))
    ensures k < |Lines(s, st)| ==> Whole(a) && (Lines(s, st)[k].structural <==> After(a, st) == NEUTRAL)
    decreases k
  {
    hide Classify, Advance;
    if k == 0 {
      a, b := "", s;
      CutNothing(s, st);
    } else {
      var raw, tail := s[..LineLen(s)], s[LineLen(s)..];
      SplitAtFirstLine(s);
      PrependLine(raw, tail, st);
      hide Lines, After, LineLen, Whole;
      var a';
      a', b := Cut(tail, Advance(raw, st), k - 1);
      a := raw + a';
      CutStep(raw, a', b, st, k);
    }
  }

  lemma CutNothing(s: string, st: State)
    ensures s == "" + s && Lines("", st) == Lines(s, st)[..0] && Lines(s, After("", st)) == Lines(s, st)[0..]
    ensures After(s, st) == After(s, After("", st))
    ensures 0 < |Lines(s, st)| ==> (Lines(s, st)[0].structural <==> After("", st) == NEUTRAL)
  {
    hide Classify, Advance;
  }

  /** A first line put before a text that has been cut. */
  lemma CutStep(raw: string, a: string, b: string, st: State, k: nat)
    requires raw != "" && LineLen(raw) == |raw| && (a + b == "" || Whole(raw))
    requires var st' := Advance(raw, st);
             && 0 < k <= |Lines(a + b, st')| + 1
             && Lines(a, st') == Lines(a + b, st')[..k - 1] && Lines(b, After(a, st')) == Lines(a + b, st')[k - 1..]
             && After(a + b, st') == After(b, After(a, st'))
             && (k <= |Lines(a + b, st')| ==>
                   Whole(a) && (Lines(a + b, st')[k - 1].structural <==> After(a, st') == NEUTRAL))
    ensures var t := raw + a;
            var ls := Lines(raw + (a + b), st);
            && raw + (a + b) == t + b && k <= |ls|
            && Lines(t, st) == ls[..k] && Lines(b, After(t, st)) == ls[k..]
            && After(raw + (a + b), st) == After(b, After(t, st))
            && (k < |ls| ==> Whole(t) && (ls[k].structural <==> After(t, st) == NEUTRAL))
  {
    hide Classify, Advance, Lines, After, LineLen, Whole;
    SeqAssoc(raw, a, b);
    PrependLine(raw, a + b, st);
    PrependLine(raw, a, st);
    Sliced(MkLine(raw, st), Lines(a + b, Advance(raw, st)), k);
    WholeAppend(raw, a);
  }

  lemma SplitAtFirstLine(s: string)
    requires s != ""
    ensures var raw, tail := s[..LineLen(s)], s[LineLen(s)..];
            s == raw + tail && LineLen(raw) == |raw| && (tail == "" || Whole(raw))
  {
    FirstLine(s);
  }

  lemma PrependLine(raw: string, tail: string, st: State)
    requires raw != "" && LineLen(raw) == |raw| && (tail == "" || Whole(raw))
    ensures Lines(raw + tail, st) == [MkLine(raw, st)] + Lines(tail, Advance(raw, st))
    ensures After(raw + tail, st) == After(tail, Advance(raw, st))
  {
    SingleLine(raw, st);
    if tail == "" {
      assert raw + tail == raw;
    } else {
      LinesCompose(raw, tail, st);
    }
  }

  lemma Sliced<T>(x: T, xs: seq<T>, k: nat)
    requires 0 < k <= |xs| + 1
    ensures ([x] + xs)[..k] == [x] + xs[..k - 1] && ([x] + xs)[k..] == xs[k - 1..]
    ensures k <= |xs| ==> ([x] + xs)[k] == xs[k - 1]
  {
  }

  // ----- characters that do not matter

  /** Characters that leave a scanner in NEUTRAL where it is. */
  predicate Inert(c: char) {
    c !in {'"', '\'', '#', '[', '{'}
  }

  lemma {:induction false} InertPrefix(p: string, x: string)
    requires forall i :: 0 <= i < |p| ==> Inert(p[i])
    ensures Advance(p + x, NEUTRAL) == Advance(x, NEUTRAL)
  {
    if p == "" {
      assert p + x == x;
    } else {
      InertPrefix(p[1..], x);
      assert (p + x)[0] == p[0] && (p + x)[1..] == p[1..] + x;
    }
  }

  lemma {:induction false} SpacesKeep(w: string, st: State)
    requires AllIn(w, SPACE)
    ensures Advance(w, st) == st
  {
    if w != "" {
      assert w[0] in SPACE;
      SpacesKeep(w[1..], st);
    }
  }

  lemma DropConcat(x: string, w: string, k: nat)
    ensures k <= |x| ==> Drop(x + w, k) == x[k..] + w
    ensures k > |x| ==> Drop(x + w, k) == Drop(w, k - |x|)
  {
  }

  lemma SpacesTail(w: string, k: nat, st: State)
    requires AllIn(w, SPACE)
    ensures Advance(Drop(w, k), st) == st
  {
    SpacesKeep(Drop(w, k), st);
  }

  /** A delimiter is not completed by white space. */
  lemma PrefixInside(q: string, x: string, w: string)
    requires AllIn(w, SPACE) && (q == QQQ || q == LLL)
    ensures q <= x + w <==> q <= x
  {
    assert q <= x ==> (x + w)[..3] == x[..3];
    if |x| < 3 && |x + w| >= 3 {
      assert (x + w)[2] == w[2 - |x|];
    }
  }

  /** How far a literal reaches does not depend on the white space its line ends in, unless it reaches into that. */
  lemma {:induction false} BasicLenTail(x: string, w: string, w': string)
    requires '\n' !in x && AllIn(w, SPACE) && AllIn(w', SPACE)
    ensures BasicLen(x + w) == BasicLen(x + w') <= |x| || (BasicLen(x + w) >= |x| && BasicLen(x + w') >= |x|)
    decreases |x|
  {
    if |x| > 0 {
      DropConcat(x, w, 1);
      DropConcat(x, w', 1);
      BasicLenTail(x[1..], w, w');
    }
    if |x| > 1 {
      DropConcat(x, w, 2);
      DropConcat(x, w', 2);
      BasicLenTail(x[2..], w, w');
    }
  }

  lemma {:induction false} LiteralLenTail(x: string, w: string, w': string)
    requires '\n' !in x && AllIn(w, SPACE) && AllIn(w', SPACE)
    ensures LiteralLen(x + w) == LiteralLen(x + w') <= |x| || (LiteralLen(x + w) >= |x| && LiteralLen(x + w') >= |x|)
    decreases |x|
  {
    if x != "" {
      DropConcat(x, w, 1);
      DropConcat(x, w', 1);
      LiteralLenTail(x[1..], w, w');
    }
  }

  /** After skipping n characters of x followed by white space the scanner ends in the same state, if it does for x. */
  lemma {:induction false} TailFrom(x: string, w: string, w': string, n: nat, n': nat, st: State)
    requires '\n' !in x && AllIn(w, SPACE) && AllIn(w', SPACE) && 0 < n && 0 < n'
    requires n == n' <= |x| || (n >= |x| && n' >= |x|)
    ensures Advance(Drop(x + w, n), st) == Advance(Drop(x + w', n'), st)
    decreases |x|, 0
  {
    DropConcat(x, w, n);
    DropConcat(x, w', n');
    if n == n' <= |x| {
      TailKeeps(x[n..], w, w', st);
    } else {
      if n == |x| { assert Drop(x + w, n) == Drop(w, 0); }
      if n' == |x| { assert Drop(x + w', n') == Drop(w', 0); }
      SpacesTail(w, n - |x|, st);
      SpacesTail(w', n' - |x|, st);
    }
  }

  /** The state after a line does not depend on the white space it ends in. */
  lemma {:induction false} TailKeeps(x: string, w: string, w': string, st: State)
    requires '\n' !in x && AllIn(w, SPACE) && AllIn(w', SPACE)
    ensures Advance(x + w, st) == Advance(x + w', st)
    decreases |x|, 3
  {
    if x == "" {
      assert x + w == w && x + w' == w';
      SpacesKeep(w, st);
      SpacesKeep(w', st);
    } else {
      PrefixInside(QQQ, x, w);
      PrefixInside(QQQ, x, w');
      PrefixInside(LLL, x, w);
      PrefixInside(LLL, x, w');
      match st.ml
      case MlBasic =>
        TailFrom(x, w, w', if x[0] == '\\' then 2 else if QQQ <= x then 3 else 1,
                 if x[0] == '\\' then 2 else if QQQ <= x then 3 else 1,
                 if x[0] != '\\' && QQQ <= x then st.(ml := MlNone) else st);
      case MlLiteral =>
        var n := if LLL <= x then 3 else 1;
        TailFrom(x, w, w', n, n, if LLL <= x then st.(ml := MlNone) else st);
      case MlNone =>
        TailTop(x, w, w', st);
    }
  }

  lemma {:induction false} TailTop(x: string, w: string, w': string, st: State)
    requires '\n' !in x && AllIn(w, SPACE) && AllIn(w', SPACE) && x != "" && st.ml == MlNone
    requires QQQ <= x + w <==> QQQ <= x
    requires QQQ <= x + w' <==> QQQ <= x
    requires LLL <= x + w <==> LLL <= x
    requires LLL <= x + w' <==> LLL <= x
    ensures Advance(x + w, st) == Advance(x + w', st)
    decreases |x|, 2
  {
    DropConcat(x, w, 1);
    DropConcat(x, w', 1);
    if x[0] == '"' {
      TailBasic(x, w, w', st);
    } else if x[0] == '\'' {
      TailLiteral(x, w, w', st);
    } else if x[0] == '[' || x[0] == '{' {
      TailFrom(x, w, w', 1, 1, st.(depth := st.depth + 1));
    } else if (x[0] == ']' || x[0] == '}') && st.depth > 0 {
      TailFrom(x, w, w', 1, 1, st.(depth := st.depth - 1));
    } else if x[0] != '#' {
      TailFrom(x, w, w', 1, 1, st);
    }
  }

  /** TailTop, where a basic string starts. */
  lemma {:induction false} TailBasic(x: string, w: string, w': string, st: State)
    requires '\n' !in x && AllIn(w, SPACE) && AllIn(w', SPACE) && x != "" && st.ml == MlNone && x[0] == '"'
    requires QQQ <= x + w <==> QQQ <= x
    requires QQQ <= x + w' <==> QQQ <= x
    ensures Advance(x + w, st) == Advance(x + w', st)
    decreases |x|, 1
  {
    hide Advance, BasicLen, LiteralLen;
    DropConcat(x, w, 1);
    DropConcat(x, w', 1);
    var n, n' := 1 + BasicLen((x + w)[1..]), 1 + BasicLen((x + w')[1..]);
    AdvanceBasic(x + w, n, st);
    AdvanceBasic(x + w', n', st);
    if QQQ <= x {
      TailFrom(x, w, w', 3, 3, st.(ml := MlBasic));
    } else {
      BasicLenTail(x[1..], w, w');
      TailFrom(x, w, w', n, n', st);
    }
  }

  /** TailTop, where a literal string starts. */
  lemma {:induction false} TailLiteral(x: string, w: string, w': string, st: State)
    requires '\n' !in x && AllIn(w, SPACE) && AllIn(w', SPACE) && x != "" && st.ml == MlNone && x[0] == '\''
    requires LLL <= x + w <==> LLL <= x
    requires LLL <= x + w' <==> LLL <= x
    ensures Advance(x + w, st) == Advance(x + w', st)
    decreases |x|, 1
  {
    hide Advance, BasicLen, LiteralLen;
    DropConcat(x, w, 1);
    DropConcat(x, w', 1);
    var n, n' := 1 + LiteralLen((x + w)[1..]), 1 + LiteralLen((x + w')[1..]);
    AdvanceLiteral(x + w, n, st);
    AdvanceLiteral(x + w', n', st);
    if LLL <= x {
      TailFrom(x, w, w', 3, 3, st.(ml := MlLiteral));
    } else {
      LiteralLenTail(x[1..], w, w');
      TailFrom(x, w, w', n, n', st);
    }
  }

  lemma WholeAppend(a: string, b: string)
    ensures Whole(a) && Whole(b) ==> Whole(a + b)
  {
  }
}
