/**
 * What redaction may touch. Only text inside string literals is offered to a mask, and a line that is shown with some
 * of its values replaced leaves the scanner where the line itself does, unless a multi-line string opens on it.
 */
module Redaction {
  import opened Wrappers
  import opened Text
  import opened Quotes
  import opened Headers
  import opened Lexer
  import opened Assigns
  import opened MaskStrings

  predicate IsQuote(c: char) {
    c == '"' || c == '\''
  }

  predicate OpensLong(s: string) {
    QQQ <= s || LLL <= s
  }

  /** How many characters the scanner takes at once, outside strings. */
  function TokenLen(s: string): (n: nat)
    requires s != ""
    ensures 0 < n <= |s|
  {
    if IsQuote(s[0]) then StringLen(s) else 1
  }

  /** The scan of s, begun outside strings, comes to position i and is outside strings and comments there. */
  predicate Outside(s: string, i: nat)
    decreases |s|
  {
    i == 0
    || (s != "" && s[0] != '#' && !OpensLong(s) && TokenLen(s) <= i && Outside(s[TokenLen(s)..], i - TokenLen(s)))
  }

  /** The line scanner agrees. */
  lemma {:induction false} OutsideIsNone(s: string, i: nat, st: State) returns (depth: nat)
    requires Outside(s, i) && st.ml == MlNone
    ensures i <= |s| && Advance(s, st) == Advance(s[i..], State(MlNone, depth))
    decreases |s|
  {
    hide Advance, StringLen;
    if i == 0 {
      depth := st.depth;
      assert s[0..] == s;
    } else {
      var n := TokenLen(s);
      var next := TokenSkipped(s, st);
      depth := OutsideIsNone(s[n..], i - n, next);
      assert s[n..][i - n..] == s[i..];
    }
  }

  lemma TokenSkipped(s: string, st: State) returns (next: State)
    requires s != "" && s[0] != '#' && !OpensLong(s) && st.ml == MlNone
    ensures next.ml == MlNone && Advance(s, st) == Advance(s[TokenLen(s)..], next)
    ensures IsQuote(s[0]) ==> next == st
    ensures !IsQuote(s[0]) ==> forall x :: Advance([s[0]] + x, st) == Advance(x, next)
  {
    hide Advance, BasicLen, LiteralLen;
    var n := TokenLen(s);
    assert s[n..] == Drop(s, n);
    if s[0] == '"' {
      AdvanceBasic(s, n, st);
      next := st;
    } else if s[0] == '\'' {
      AdvanceLiteral(s, n, st);
      next := st;
    } else {
      AdvanceTop(s, st);
      next := if s[0] == '[' || s[0] == '{' then st.(depth := st.depth + 1)
              else if (s[0] == ']' || s[0] == '}') && st.depth > 0 then st.(depth := st.depth - 1)
              else st;
      forall x ensures Advance([s[0]] + x, st) == Advance(x, next) {
        AdvanceTop([s[0]] + x, st);
        assert Drop([s[0]] + x, 1) == x;
      }
    }
  }

  // ----- what is offered

  /** Where piece k starts. */
  function StartOf(ps: seq<Piece>, k: nat): nat
    requires k <= |ps|
  {
    if k == 0 then 0 else |ps[0].text| + StartOf(ps[1..], k - 1)
  }

  /** s[p..e] is the inside of a string that opens outside strings and comments. */
  predicate Inside(s: string, p: nat, e: nat) {
    p <= e <= |s| && (InsideLong(s, p, e) || InsideShort(s, p, e))
  }

  /** What follows the opening of a multi-line string, to the end of the line. */
  predicate InsideLong(s: string, p: nat, e: nat)
    requires p <= |s|
  {
    p >= 3 && Outside(s, p - 3) && OpensLong(s[p - 3..]) && e == |s|
  }

  /** What follows the opening quote of a one-line string, to its closing quote or the end of the line. */
  predicate InsideShort(s: string, p: nat, e: nat)
    requires p <= e <= |s|
  {
    && p >= 1 && Outside(s, p - 1) && p - 1 < |s| && IsQuote(s[p - 1]) && !OpensLong(s[p - 1..])
    && var end := p - 1 + TokenLen(s[p - 1..]);
       (e == end - 1 && s[e] == s[p - 1]) || (e == end && (e == |s| || s[e] == '\n'))
  }

  /** Piece k is the inside of a string of s. */
  predicate IsInside(s: string, ps: seq<Piece>, k: nat)
    requires k < |ps|
  {
    var p, v := StartOf(ps, k), ps[k].text;
    Inside(s, p, p + |v|) && s[p..p + |v|] == v
  }

  /** Every value a line offers is the inside of a string, up to its closing quote or the end of the line. */
  lemma {:induction false} OffersInside(s: string, k: nat)
    requires k < |Pieces(s)| && Pieces(s)[k].Val?
    ensures IsInside(s, Pieces(s), k)
    decreases |s|
  {
    hide StringLen, IsInside, Outside, Inner;
    if s[0] == '#' {
    } else if OpensLong(s) {
      LongOffers(s, k);
    } else if IsQuote(s[0]) {
      var n := StringLen(s);
      var i := Inner(s, n);
      var head := [Lit([s[0]]), Val(s[1..i]), Lit(s[i..n])];
      assert Pieces(s) == head + Pieces(s[n..]);
      if k == 1 {
        StringOffers(s, Pieces(s[n..]));
      } else {
        OffersInside(s[n..], k - 3);
        HeadStarts(s, i, n);
        LaterOffers(s, head, Pieces(s[n..]), k - 3);
      }
    } else {
      var head := [Lit([s[0]])];
      assert Pieces(s) == head + Pieces(s[1..]);
      OffersInside(s[1..], k - 1);
      assert StartOf(head, 1) == 1;
      LaterOffers(s, head, Pieces(s[1..]), k - 1);
    }
  }

  /** And every string that opens outside strings and comments is offered, from behind its opening on. */
  lemma {:induction false} OffersAll(s: string, q: nat) returns (k: nat)
    requires Outside(s, q) && q < |s| && IsQuote(s[q])
    ensures k < |Pieces(s)| && Pieces(s)[k].Val?
    ensures StartOf(Pieces(s), k) == q + if OpensLong(s[q..]) then 3 else 1
    decreases |s|
  {
    hide StringLen, Outside, Inner, OpensLong;
    assert s[0..] == s;
    if OpensLong(s) {
      k := 1;
      LongFirst(s, q);
    } else if q == 0 {
      k := 1;
      ShortFirst(s);
    } else {
      var n := TokenLen(s);
      OutsideNext(s, q);
      assert s[n..][q - n..] == s[q..] && s[n..][q - n] == s[q];
      k := OffersAll(s[n..], q - n);
      k := PiecesLater(s, k);
    }
  }

  lemma OutsideNext(s: string, q: nat)
    requires Outside(s, q) && q > 0
    ensures s != "" && s[0] != '#' && !OpensLong(s) && TokenLen(s) <= q && Outside(s[TokenLen(s)..], q - TokenLen(s))
  {
  }

  lemma LongFirst(s: string, q: nat)
    requires OpensLong(s) && Outside(s, q)
    ensures q == 0 && |Pieces(s)| == 2 && Pieces(s)[1].Val? && StartOf(Pieces(s), 1) == 3
  {
    assert s[0] == QQQ[0] || s[0] == LLL[0];
    assert Pieces(s)[0] == Lit(s[..3]);
  }

  lemma ShortFirst(s: string)
    requires s != "" && IsQuote(s[0]) && !OpensLong(s)
    ensures |Pieces(s)| > 1 && Pieces(s)[1].Val? && StartOf(Pieces(s), 1) == 1
  {
    hide StringLen, Inner;
    var n := StringLen(s);
    var k := Inner(s, n);
    assert Pieces(s) == [Lit([s[0]]), Val(s[1..k]), Lit(s[k..n])] + Pieces(s[n..]);
  }

  /** A piece of the text after the first token is a piece of the text. */
  lemma PiecesLater(s: string, k: nat) returns (k': nat)
    requires s != "" && s[0] != '#' && !OpensLong(s) && k < |Pieces(s[TokenLen(s)..])|
    ensures k' < |Pieces(s)| && Pieces(s)[k'] == Pieces(s[TokenLen(s)..])[k]
    ensures StartOf(Pieces(s), k') == TokenLen(s) + StartOf(Pieces(s[TokenLen(s)..]), k)
  {
    hide StringLen, Inner, StartOf;
    var n := TokenLen(s);
    var rest := Pieces(s[n..]);
    var head := if IsQuote(s[0]) then [Lit([s[0]]), Val(s[1..Inner(s, n)]), Lit(s[Inner(s, n)..n])] else [Lit([s[0]])];
    assert Pieces(s) == head + rest;
    if IsQuote(s[0]) { HeadStarts(s, Inner(s, n), n); } else { OneStart([s[0]]); }
    StartAppend(head, rest, k);
    k' := |head| + k;
  }

  lemma OneStart(t: string)
    ensures StartOf([Lit(t)], 1) == |t|
  {
  }

  lemma LongOffers(s: string, k: nat)
    requires OpensLong(s) && k < |Pieces(s)| && Pieces(s)[k].Val?
    ensures IsInside(s, Pieces(s), k)
  {
    assert Pieces(s) == [Lit(s[..3]), Val(s[3..])] && Pieces(s)[1..] == [Val(s[3..])];
    assert s[0..] == s;
  }

  lemma StringOffers(s: string, rest: seq<Piece>)
    requires s != "" && IsQuote(s[0]) && !OpensLong(s)
    ensures var n := StringLen(s);
            var i := Inner(s, n);
            IsInside(s, [Lit([s[0]]), Val(s[1..i]), Lit(s[i..n])] + rest, 1)
  {
    hide StringLen;
    StringEnds(s);
    assert s[0..] == s;
    var n := StringLen(s);
    var i := Inner(s, n);
    var ps := [Lit([s[0]]), Val(s[1..i]), Lit(s[i..n])] + rest;
    assert ps[0].text == [s[0]] && ps[1].text == s[1..i] && StartOf(ps, 1) == 1;
  }

  lemma HeadStarts(s: string, i: nat, n: nat)
    requires s != "" && 1 <= i <= n <= |s|
    ensures StartOf([Lit([s[0]]), Val(s[1..i]), Lit(s[i..n])], 3) == n
  {
    var head := [Lit([s[0]]), Val(s[1..i]), Lit(s[i..n])];
    var tail, last := [Val(s[1..i]), Lit(s[i..n])], [Lit(s[i..n])];
    assert head[1..] == tail && tail[1..] == last;
    assert StartOf(last, 1) == n - i && StartOf(tail, 2) == i - 1 + StartOf(last, 1);
  }

  lemma {:induction false} StartAppend(head: seq<Piece>, rest: seq<Piece>, k: nat)
    requires k <= |rest|
    ensures StartOf(head + rest, |head| + k) == StartOf(head, |head|) + StartOf(rest, k)
  {
    if head == [] {
      assert head + rest == rest;
    } else {
      StartAppend(head[1..], rest, k);
      assert (head + rest)[1..] == head[1..] + rest;
    }
  }

  /** What is inside a string of the text after the first token is inside a string of the text. */
  lemma LaterOffers(s: string, head: seq<Piece>, rest: seq<Piece>, k: nat)
    requires s != "" && s[0] != '#' && !OpensLong(s) && StartOf(head, |head|) == TokenLen(s)
    requires k < |rest| && IsInside(s[TokenLen(s)..], rest, k)
    ensures IsInside(s, head + rest, |head| + k)
  {
    hide StringLen, StartOf, Inside;
    StartAppend(head, rest, k);
    InsideLater(s, TokenLen(s), StartOf(rest, k), StartOf(rest, k) + |rest[k].text|);
  }

  /** A string ends at its closing quote, or where its line does. */
  lemma StringEnds(s: string)
    requires s != "" && IsQuote(s[0])
    ensures var n := StringLen(s);
            var i := Inner(s, n);
            && (i == n ==> n == |s| || s[n] == '\n') && (i < n ==> s[i] == s[0])
  {
    hide BasicLen, LiteralLen;
    var b, n := s[1..], StringLen(s);
    BasicEnds(b);
    LiteralEnds(b);
    assert n - 1 == if s[0] == '\'' then LiteralLen(b) else BasicLen(b);
    assert n < |s| ==> b[n - 1] == s[n];
    assert n > 1 ==> b[n - 2] == s[n - 1];
  }

  lemma {:induction false} BasicEnds(b: string)
    ensures var n := BasicLen(b); n == |b| || b[n] == '\n' || (n > 0 && b[n - 1] == '"')
  {
    if b == "" {
    } else if b[0] == '\\' && |b| > 1 {
      BasicEnds(b[2..]);
    } else if b[0] != '\\' && b[0] != '"' && b[0] != '\n' {
      BasicEnds(b[1..]);
    }
  }

  lemma {:induction false} LiteralEnds(b: string)
    ensures var n := LiteralLen(b); n == |b| || b[n] == '\n' || (n > 0 && b[n - 1] == '\'')
  {
    if b != "" && b[0] != '\'' && b[0] != '\n' { LiteralEnds(b[1..]); }
  }

  lemma OutsideLater(s: string, n: nat, i: nat)
    requires s != "" && s[0] != '#' && !OpensLong(s) && n == TokenLen(s) && Outside(s[n..], i)
    ensures Outside(s, n + i)
  {
    hide StringLen;
  }

  lemma InsideLater(s: string, n: nat, p: nat, e: nat)
    requires s != "" && s[0] != '#' && !OpensLong(s) && n == TokenLen(s) && Inside(s[n..], p, e)
    ensures Inside(s, n + p, n + e) && s[n + p..n + e] == s[n..][p..e]
  {
    hide InsideLong, InsideShort, TokenLen, OpensLong;
    Slices(s, n, p, e);
    if InsideLong(s[n..], p, e) { LongLater(s, n, p, e); } else { ShortLater(s, n, p, e); }
  }

  lemma Slices(s: string, n: nat, p: nat, e: nat)
    requires n <= |s| && p <= e <= |s| - n
    ensures s[n + p..n + e] == s[n..][p..e]
  {
  }

  lemma LongLater(s: string, n: nat, p: nat, e: nat)
    requires s != "" && s[0] != '#' && !OpensLong(s) && n == TokenLen(s)
    requires p <= |s[n..]| && InsideLong(s[n..], p, e)
    ensures InsideLong(s, n + p, n + e)
  {
    hide Outside, OpensLong, TokenLen;
    OutsideLater(s, n, p - 3);
    assert s[n..][p - 3..] == s[n + p - 3..];
  }

  lemma ShortLater(s: string, n: nat, p: nat, e: nat)
    requires s != "" && s[0] != '#' && !OpensLong(s) && n == TokenLen(s)
    requires p <= e <= |s[n..]| && InsideShort(s[n..], p, e)
    ensures InsideShort(s, n + p, n + e)
  {
    hide Outside, OpensLong, TokenLen;
    OutsideLater(s, n, p - 1);
    assert s[n..][p - 1..] == s[n + p - 1..] && s[n..][p - 1] == s[n + p - 1];
    assert e < |s[n..]| ==> s[n..][e] == s[n + e];
  }

  lemma {:induction false} RenderAt(ps: seq<Piece>, k: nat, name: string, mask: Mask)
    requires k < |ps|
    ensures Render(ps, name, mask) ==
            Render(ps[..k], name, mask) + (match ps[k] case Lit(t) => t case Val(v) => mask(name, v))
            + Render(ps[k + 1..], name, mask)
  {
    if k > 0 {
      RenderAt(ps[1..], k - 1, name, mask);
      assert ps[1..][..k - 1] == ps[..k][1..] && ps[1..][k..] == ps[k + 1..];
    }
  }

  /**
   * What the redaction shows: every string that opens among the values of a line, outside strings and comments, is
   * shown as what the mask makes of its inside under the name of the line.
   */
  lemma StringsMasked(line: string, mask: Mask, q: nat) returns (k: nat)
    requires Classify(line).Other?
    requires var s := line[ValuesAt(line)..]; Outside(s, q) && q < |s| && IsQuote(s[q])
    ensures var s, name := line[ValuesAt(line)..], NameOf(line);
            var ps := Pieces(s);
            && k < |ps| && IsInside(s, ps, k) && StartOf(ps, k) == q + (if OpensLong(s[q..]) then 3 else 1)
            && MaskedLine(line, mask) == line[..ValuesAt(line)]
                 + (Render(ps[..k], name, mask) + mask(name, ps[k].text) + Render(ps[k + 1..], name, mask))
  {
    hide Classify, Pieces, Render, ValuesAt, NameOf, Outside, IsInside, StartOf, OpensLong;
    var s := line[ValuesAt(line)..];
    k := OffersAll(s, q);
    OffersInside(s, k);
    RenderAt(Pieces(s), k, NameOf(line), mask);
  }

  /** Nothing is outside strings and comments behind the start of a comment. */
  lemma {:induction false} CommentsEnd(s: string, q: nat, x: nat)
    requires Outside(s, q) && q < |s| && s[q] == '#' && Outside(s, x)
    ensures x <= q
    decreases |s|
  {
    hide StringLen;
    if q > 0 && x > 0 { CommentsEnd(s[TokenLen(s)..], q - TokenLen(s), x - TokenLen(s)); }
  }

  /** The scanner is outside strings nowhere inside the token at i, and nowhere behind a multi-line string's opening. */
  lemma {:induction false} TokenWhole(s: string, i: nat, x: nat)
    requires Outside(s, i) && i < |s| && s[i] != '#' && Outside(s, x) && x > i
    ensures !OpensLong(s[i..]) && x >= i + TokenLen(s[i..])
    decreases |s|
  {
    hide StringLen, OpensLong;
    if i == 0 {
      assert s[0..] == s;
    } else {
      var n := TokenLen(s);
      assert s[n..][i - n..] == s[i..] && s[n..][i - n] == s[i];
      TokenWhole(s[n..], i - n, x - n);
    }
  }

  /** A comment is never offered. */
  lemma CommentsShown(s: string, q: nat, k: nat)
    requires Outside(s, q) && q < |s| && s[q] == '#'
    requires k < |Pieces(s)| && Pieces(s)[k].Val?
    ensures StartOf(Pieces(s), k) + |Pieces(s)[k].text| <= q
  {
    hide Pieces, StringLen, Outside, StartOf;
    OffersInside(s, k);
    var p := StartOf(Pieces(s), k);
    var at := if InsideLong(s, p, p + |Pieces(s)[k].text|) then p - 3 else p - 1;
    CommentsEnd(s, q, at);
    assert s[at..][0] == s[at];
    TokenWhole(s, at, q);
  }

  /** A line that is a comment or blank is shown as it is. */
  lemma CommentLinesShown(line: string, mask: Mask)
    requires var s := if line != "" && line[0] == '\U{FEFF}' then line[1..] else line;
             StartsWith(s, '#') || forall i :: 0 <= i < |s| ==> IsSpace(s[i])
    ensures MaskedLine(line, mask) == line
  {
    hide Classify, Pieces, Render, ValuesAt;
    KindIs(line);
  }

  /** The values of an assignment begin outside strings and comments. */
  lemma ValuesOutside(line: string)
    ensures Outside(line, ValuesAt(line))
  {
    hide KeyOf, First;
    if ValuesAt(line) > 0 {
      KeyPlain(line);
      assert line[..ValuesAt(line)] == line[..First(line, '=')] + [line[First(line, '=')]];
      PlainOutside(line, ValuesAt(line));
    }
  }

  lemma KeyPlain(line: string)
    requires KeyOf(line).Some?
    ensures Unmarked(line[..First(line, '=')])
  {
    hide Trim, First;
    var lhs := line[..First(line, '=')];
    var left, right := TrimParts(lhs, BLANK);
    BlankPlain(left);
    BlankPlain(right);
    PlainThree(left, Trim(lhs, BLANK), right);
    assert forall i :: 0 <= i < |lhs| ==> lhs[i] == line[i];
  }

  predicate Unmarked(s: string) {
    forall i :: 0 <= i < |s| ==> s[i] != '#' && !IsQuote(s[i])
  }

  lemma BlankPlain(s: string)
    requires AllIn(s, BLANK)
    ensures Unmarked(s)
  {
    forall i | 0 <= i < |s| ensures s[i] in BLANK {}
  }

  lemma PlainThree(a: string, b: string, c: string)
    requires Unmarked(a) && Unmarked(b) && Unmarked(c)
    ensures Unmarked(a + b + c)
  {
  }

  lemma {:induction false} PlainOutside(s: string, n: nat)
    requires n <= |s| && Unmarked(s[..n])
    ensures Outside(s, n)
    decreases n
  {
    if n > 0 {
      assert s[..n][0] == s[0] && s[1..][..n - 1] == s[..n][1..];
      PlainOutside(s[1..], n - 1);
    }
  }

  // ----- what a mask leaves of the line's state

  /** What a mask shows in place of a value: text that cannot end a string, and some of it. */
  predicate Plain(t: string) {
    t != "" && forall i :: 0 <= i < |t| ==> !IsQuote(t[i]) && t[i] != '\\' && t[i] != '\n'
  }

  /** A mask that shows a value as it is or hides it behind plain text. */
  predicate Redacts(name: string, mask: Mask, vs: seq<string>) {
    forall v :: v in vs ==> mask(name, v) == v || Plain(mask(name, v))
  }

  /** The value that runs on past the line, if a multi-line string opens outside strings and comments. */
  function LongValue(s: string): Option<string>
    decreases |s|
  {
    if s == "" || s[0] == '#' then None
    else if OpensLong(s) then Some(s[3..])
    else LongValue(s[TokenLen(s)..])
  }

  lemma {:induction false} BasicPlain(t: string, rest: string)
    requires forall i :: 0 <= i < |t| ==> !IsQuote(t[i]) && t[i] != '\\' && t[i] != '\n'
    ensures BasicLen(t + rest) == |t| + BasicLen(rest) && LiteralLen(t + rest) == |t| + LiteralLen(rest)
  {
    if t == "" {
      assert t + rest == rest;
    } else {
      BasicPlain(t[1..], rest);
      assert (t + rest)[0] == t[0] && (t + rest)[1..] == t[1..] + rest;
    }
  }

  /** A hidden value closes where the value did: at the quote that is put back, or at the end of the line. */
  lemma HiddenLen(c: char, t: string, q: string, rest: string)
    requires IsQuote(c) && Plain(t) && (q == [c] || (q == "" && (rest == "" || rest[0] == '\n')))
    ensures var s := [c] + t + q + rest; StringLen(s) == 1 + |t + q| && !OpensLong(s)
  {
    var s := [c] + t + q + rest;
    assert s[1..] == t + (q + rest) && s[1] == t[0];
    BasicPlain(t, q + rest);
    assert q != "" ==> (q + rest)[0] == c;
    assert q == "" ==> q + rest == rest;
  }

  /** How far a one-line string reaches depends on its own text and on the character behind it. */
  lemma {:induction false} BasicSame(b: string, x: string)
    requires var rest := b[BasicLen(b)..]; if rest == "" then x == "" else x != "" && x[0] == rest[0]
    ensures BasicLen(b[..BasicLen(b)] + x) == BasicLen(b)
  {
    var n := BasicLen(b);
    var s := b[..n] + x;
    if b == "" || (b[0] == '\\' && |b| == 1) {
      assert s == b;
    } else if b[0] == '\\' {
      assert s[2..] == b[2..][..n - 2] + x && b[2..][n - 2..] == b[n..] && s[0] == b[0];
      BasicSame(b[2..], x);
    } else if b[0] == '"' {
      assert s[0] == b[0];
    } else if b[0] == '\n' {
      assert s == x;
    } else {
      assert s[1..] == b[1..][..n - 1] + x && b[1..][n - 1..] == b[n..] && s[0] == b[0];
      BasicSame(b[1..], x);
    }
  }

  lemma {:induction false} LiteralSame(b: string, x: string)
    requires var rest := b[LiteralLen(b)..]; if rest == "" then x == "" else x != "" && x[0] == rest[0]
    ensures LiteralLen(b[..LiteralLen(b)] + x) == LiteralLen(b)
  {
    var n := LiteralLen(b);
    var s := b[..n] + x;
    if b == "" {
      assert s == b;
    } else if b[0] == '\'' {
      assert s[0] == b[0];
    } else if b[0] == '\n' {
      assert s == x;
    } else {
      assert s[1..] == b[1..][..n - 1] + x && b[1..][n - 1..] == b[n..] && s[0] == b[0];
      LiteralSame(b[1..], x);
    }
  }

  /** A string shown as it is ends where it did, whatever is shown behind it. */
  lemma ShownLen(s: string, x: string)
    requires s != "" && IsQuote(s[0]) && !OpensLong(s)
    requires var rest := s[StringLen(s)..]; if rest == "" then x == "" else x != "" && x[0] == rest[0]
    ensures var t := s[..StringLen(s)] + x; StringLen(t) == StringLen(s) && !OpensLong(t) && t[0] == s[0]
  {
    hide BasicLen, LiteralLen;
    var b, n := s[1..], StringLen(s);
    var t := s[..n] + x;
    assert b[n - 1..] == s[n..] && t[1..] == b[..n - 1] + x;
    if s[0] == '"' { BasicSame(b, x); } else { LiteralSame(b, x); }
    if n < |s| { assert t[n] == s[n]; }
    assert forall i :: 0 <= i < n ==> t[i] == s[i];
    if n == 1 { StringEnds(s); }
  }

  lemma {:induction false} StaysInside(t: string, st: State)
    requires st.ml != MlNone && forall i :: 0 <= i < |t| ==> !IsQuote(t[i]) && t[i] != '\\'
    ensures Advance(t, st) == st
  {
    hide Advance;
    if t == "" {
      AdvanceAtEnd(st);
    } else {
      AdvanceInString(t, st);
      assert Drop(t, 1) == t[1..] && !IsQuote(t[0]) && t[0] != '\\';
      assert !(QQQ <= t) && !(LLL <= t);
      StaysInside(t[1..], st);
    }
  }

  /** A multi-line string whose beginning is hidden does not end on the line. */
  lemma LongHidden(s: string, m: string, st: State)
    requires OpensLong(s) && st.ml == MlNone && Plain(m)
    ensures Advance(s[..3] + m, st).ml != MlNone
  {
    hide Advance, BasicLen, LiteralLen;
    var t := s[..3] + m;
    assert Drop(t, 3) == m && t[0] == s[0];
    if QQQ <= s {
      AdvanceBasic(t, 1 + BasicLen(t[1..]), st);
      StaysInside(m, st.(ml := MlBasic));
    } else {
      AdvanceLiteral(t, 1 + LiteralLen(t[1..]), st);
      StaysInside(m, st.(ml := MlLiteral));
    }
  }

  /** The rest of a shown line starts like the rest of the line. */
  predicate Alike(t: string, s: string) {
    (t == "" <==> s == "") && (s != "" ==> t[0] == s[0])
  }

  /** What is shown of a string leaves the scanner outside strings again. */
  lemma StringShown(s: string, m: string, rest: string, st: State)
    requires s != "" && IsQuote(s[0]) && !OpensLong(s) && st.ml == MlNone && Alike(rest, s[StringLen(s)..])
    requires Plain(m) || m == s[1..Inner(s, StringLen(s))]
    ensures var n := StringLen(s);
            Advance([s[0]] + m + s[Inner(s, n)..n] + rest, st) == Advance(rest, st)
  {
    hide Advance, StringLen;
    var n := StringLen(s);
    var k := Inner(s, n);
    var q := s[k..n];
    var t := [s[0]] + m + q + rest;
    StringEnds(s);
    if m == s[1..k] {
      assert t == s[..n] + rest;
      ShownLen(s, rest);
      var next := TokenSkipped(t, st);
      assert t[n..] == rest;
    } else {
      assert k < n ==> q == [s[0]];
      assert k == n && s[n..] != "" ==> s[n..][0] == '\n';
      HiddenLen(s[0], m, q, rest);
      var next := TokenSkipped(t, st);
      assert t[1 + |m + q|..] == rest;
    }
  }

  /**
   A line shown with values hidden leaves the scanner where the line does, if no multi-line string opens on it or the
   value of the one that does is shown; else it leaves the scanner inside that string.
   */
  lemma {:induction false} ShownScans(s: string, name: string, mask: Mask, st: State)
    requires st.ml == MlNone && Redacts(name, mask, Values(Pieces(s)))
    ensures Alike(Render(Pieces(s), name, mask), s)
    ensures LongValue(s).None? || mask(name, LongValue(s).value) == LongValue(s).value ==>
              Advance(Render(Pieces(s), name, mask), st) == Advance(s, st)
    ensures LongValue(s).Some? && mask(name, LongValue(s).value) != LongValue(s).value ==>
              Advance(Render(Pieces(s), name, mask), st).ml != MlNone
    decreases |s|
  {
    hide Advance, StringLen, Inner, Render, Values, Plain;
    if s == "" {
      RenderNothing(name, mask);
    } else {
      PiecesStep(s, name, mask, "");
      EmptyLeft(Render(Pieces(s), name, mask));
      if s[0] == '#' {
        EmptyLeft(s);
      } else if OpensLong(s) {
        LongShown(s, name, mask, st);
        EmptyLeft(s[..3]);
      } else if IsQuote(s[0]) {
        var n := StringLen(s);
        var k := Inner(s, n);
        var m, rest := mask(name, s[1..k]), Render(Pieces(s[n..]), name, mask);
        ValuesThree([s[0]], s[1..k], s[k..n], Pieces(s[n..]));
        assert s[1..k] in Values(Pieces(s));
        ShownScans(s[n..], name, mask, st);
        EmptyLeft([s[0]]);
        StringShown(s, m, rest, st);
        var next := TokenSkipped(s, st);
      } else {
        ValuesCons(Lit([s[0]]), Pieces(s[1..]));
        var next := TokenSkipped(s, st);
        ShownScans(s[1..], name, mask, next);
        EmptyLeft([s[0]]);
      }
    }
  }

  lemma LongShown(s: string, name: string, mask: Mask, st: State)
    requires OpensLong(s) && st.ml == MlNone && Redacts(name, mask, Values(Pieces(s)))
    ensures var v, t := s[3..], s[..3] + mask(name, s[3..]);
            && Alike(t, s) && (mask(name, v) == v ==> t == s)
            && (mask(name, v) != v ==> Advance(t, st).ml != MlNone)
  {
    hide Advance, Plain;
    var v := s[3..];
    assert Pieces(s) == [Lit(s[..3])] + [Val(v)] && [Val(v)] == [Val(v)] + [];
    ValuesCons(Lit(s[..3]), [Val(v)]);
    ValuesCons(Val(v), []);
    assert v in Values(Pieces(s));
    if mask(name, v) != v { LongHidden(s, mask(name, v), st); } else { assert s == s[..3] + v; }
  }

  /**
   Redaction keeps a file's structure: a line that closes what it opens still does so when values on it are hidden, if
   and only if no multi-line string that opens on it is hidden. (One line cannot tell where such a string ends.)
   */
  lemma RedactionCloses(line: string, mask: Mask)
    requires Redacts(NameOf(line), mask, Offered(line)) && Advance(line, NEUTRAL) == NEUTRAL
    ensures var long := if Classify(line).Other? then LongValue(line[ValuesAt(line)..]) else None;
            Advance(MaskedLine(line, mask), NEUTRAL) == NEUTRAL <==>
              long.None? || mask(NameOf(line), long.value) == long.value
  {
    hide Classify, Advance, Pieces, Render, KeyOf, First, Plain;
    if Classify(line).Other? {
      var v := ValuesAt(line);
      var depth := KeyScans(line);
      ShownScans(line[v..], NameOf(line), mask, State(MlNone, depth));
      assert line == line[..v] + line[v..];
    }
  }

  /** What is before the values of a line only moves the bracket depth, whatever the values are. */
  lemma KeyScans(line: string) returns (depth: nat)
    ensures forall x :: Advance(line[..ValuesAt(line)] + x, NEUTRAL) == Advance(x, State(MlNone, depth))
  {
    hide KeyOf, First;
    if ValuesAt(line) > 0 {
      KeyPlain(line);
      assert line[..ValuesAt(line)] == line[..First(line, '=')] + [line[First(line, '=')]];
    }
    depth := UnmarkedScans(line[..ValuesAt(line)], 0);
  }

  lemma {:induction false} UnmarkedScans(s: string, depth: nat) returns (after: nat)
    requires Unmarked(s)
    ensures forall x :: Advance(s + x, State(MlNone, depth)) == Advance(x, State(MlNone, after))
  {
    hide Advance;
    if s == "" {
      after := depth;
      forall x ensures Advance(s + x, State(MlNone, depth)) == Advance(x, State(MlNone, depth)) { EmptyLeft(x); }
    } else {
      var next := TokenSkipped(s, State(MlNone, depth));
      after := UnmarkedScans(s[1..], next.depth);
      forall x ensures Advance(s + x, State(MlNone, depth)) == Advance(x, State(MlNone, after)) {
        assert s + x == [s[0]] + (s[1..] + x);
      }
    }
  }
}
