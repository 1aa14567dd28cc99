/**
 * Redacting the string values of one line for display. A line is cut into pieces that are copied and values that are
 * offered to the mask; where it is cut does not depend on the mask.
 */
module MaskStrings {
  import opened Wrappers
  import opened Text
  import opened Quotes
  import opened Headers
  import opened Lexer
  import opened Tables
  import opened Edits
  import opened Assigns
  import opened SetKeys

  datatype Piece = Lit(text: string) | Val(text: string)

  type Mask = (string, string) -> string

  /** Where the inside of the string that s starts with ends, if the string takes n characters. */
  function Inner(s: string, n: nat): (k: nat)
    requires 0 < n <= |s|
    ensures 1 <= k <= n
  {
    if n > 1 && s[n - 1] == s[0] then n - 1 else n
  }

  /** How far the one-line string that s starts with reaches. */
  function StringLen(s: string): (n: nat)
    requires s != ""
    ensures 0 < n <= |s|
  {
    1 + if s[0] == '\'' then LiteralLen(s[1..]) else BasicLen(s[1..])
  }

  /** The pieces of a line from a place outside strings on. */
  function Pieces(s: string): seq<Piece>
    decreases |s|
  {
    if s == "" then []
    else if s[0] == '#' then [Lit(s)]
    else if QQQ <= s || LLL <= s then [Lit(s[..3]), Val(s[3..])]
    else if s[0] == '"' || s[0] == '\'' then
      var n := StringLen(s);
      var k := Inner(s, n);
      [Lit([s[0]]), Val(s[1..k]), Lit(s[k..n])] + Pieces(s[n..])
    else [Lit([s[0]])] + Pieces(s[1..])
  }

  function Shown(p: Piece, name: string, mask: Mask): string {
    match p
    case Lit(t) => t
    case Val(t) => mask(name, t)
  }

  function Render(ps: seq<Piece>, name: string, mask: Mask): string {
    if ps == [] then "" else Shown(ps[0], name, mask) + Render(ps[1..], name, mask)
  }

  /** Where the values of a line begin, and the name they belong to: after the equals sign of an assignment. */
  function ValuesAt(line: string): (i: nat)
    ensures i <= |line|
  {
    if KeyOf(line).Some? && First(line, '=') < |line| then First(line, '=') + 1 else 0
  }

  function NameOf(line: string): string {
    match KeyOf(line) case None => "" case Some(k) => k
  }

  /** MaskStrings. */
  function MaskedLine(line: string, mask: Mask): string {
    if !Classify(line).Other? then line
    else line[..ValuesAt(line)] + Render(Pieces(line[ValuesAt(line)..]), NameOf(line), mask)
  }

  /** The values a line offers to a mask, in order. */
  function Values(ps: seq<Piece>): seq<string> {
    if ps == [] then [] else (if ps[0].Val? then [ps[0].text] else []) + Values(ps[1..])
  }

  function Offered(line: string): seq<string> {
    if Classify(line).Other? then Values(Pieces(line[ValuesAt(line)..])) else []
  }

  lemma KeyHasEqual(line: string)
    requires KeyOf(line).Some?
    ensures First(line, '=') < |line|
  {
  }

  /** The scan of MaskStrings. */
  method MaskLine(line: string, mask: Mask) returns (out: string)
    ensures out == MaskedLine(line, mask)
  {
    hide Classify, Render, Pieces, First, KeyOf;
    if Classify(line) != Other {
      return line;
    }
    var i := 0;
    var name := NameOf(line);
    var key := KeyOf(line);
    if key.Some? {
      KeyHasEqual(line);
      i := First(line, '=') + 1;
    }
    out := MaskFrom(line, i, name, mask);
    out := line[..i] + out;
  }

  /** The loop of MaskStrings. */
  method MaskFrom(line: string, start: nat, name: string, mask: Mask) returns (out: string)
    requires start <= |line|
    ensures out == Render(Pieces(line[start..]), name, mask)
  {
    hide Render, Pieces, StringLen, Inner;
    out := "";
    var i := start;
    ghost var goal := Render(Pieces(line[start..]), name, mask);
    while i < |line|
      invariant i <= |line| && goal == out + Render(Pieces(line[i..]), name, mask)
    {
      var s := line[i..];
      PiecesStep(s, name, mask, out);
      if line[i] == '#' {
        return out + s;
      }
      if QQQ <= s || LLL <= s {
        return out + s[..3] + mask(name, s[3..]);
      }
      if line[i] == '"' || line[i] == '\'' {
        var end, inner := StringEnd(line, i);
        StringSlices(line, i, inner, end);
        out := out + [line[i]] + mask(name, line[i + 1..inner]) + line[inner..end];
        i := end;
      } else {
        DropDrop(line, i, i + 1);
        out := out + [line[i]];
        i := i + 1;
      }
    }
    assert line[i..] == "";
    RenderNothing(name, mask);
  }

  /** Where the string that opens at i ends, and where its inside does. */
  method StringEnd(line: string, i: nat) returns (end: nat, inner: nat)
    requires i < |line| && (line[i] == '"' || line[i] == '\'')
    ensures end == i + StringLen(line[i..]) && inner == i + Inner(line[i..], StringLen(line[i..]))
    ensures i < inner <= end <= |line|
  {
    hide BasicLen, LiteralLen;
    assert line[i..][1..] == line[i + 1..];
    end := SkipBasic(line, i);
    if line[i] == '\'' {
      end := SkipLiteral(line, i);
    }
    assert line[i..][end - i - 1] == line[end - 1];
    inner := end;
    if inner > i + 1 && line[inner - 1] == line[i] {
      inner := inner - 1;
    }
  }

  lemma StringSlices(line: string, i: nat, inner: nat, end: nat)
    requires i < inner <= end <= |line|
    ensures var s := line[i..];
            && s[0] == line[i] && s[1..inner - i] == line[i + 1..inner]
            && s[inner - i..end - i] == line[inner..end] && s[end - i..] == line[end..]
  {
  }

  lemma RenderNothing(name: string, mask: Mask)
    ensures Render(Pieces(""), name, mask) == ""
  {
  }

  /** What one round of the loop writes. */
  lemma PiecesStep(s: string, name: string, mask: Mask, out: string)
    requires s != ""
    ensures out + Render(Pieces(s), name, mask) ==
              if s[0] == '#' then out + s
              else if QQQ <= s || LLL <= s then out + s[..3] + mask(name, s[3..])
              else if s[0] == '"' || s[0] == '\'' then
                var n := StringLen(s);
                var k := Inner(s, n);
                out + [s[0]] + mask(name, s[1..k]) + s[k..n] + Render(Pieces(s[n..]), name, mask)
              else out + [s[0]] + Render(Pieces(s[1..]), name, mask)
  {
    hide Render, StringLen, Inner;
    if s[0] == '#' {
      RenderCons(Lit(s), [], name, mask);
      RenderEmpty(name, mask);
      assert [Lit(s)] + [] == [Lit(s)] && s + "" == s;
    } else if QQQ <= s || LLL <= s {
      var ps := [Lit(s[..3]), Val(s[3..])];
      assert Pieces(s) == ps && [Val(s[3..])] + [] == [Val(s[3..])] && ps == [Lit(s[..3])] + [Val(s[3..])];
      assert mask(name, s[3..]) + "" == mask(name, s[3..]);
      RenderCons(Lit(s[..3]), [Val(s[3..])], name, mask);
      RenderCons(Val(s[3..]), [], name, mask);
      RenderEmpty(name, mask);
      SeqAssoc(out, s[..3], mask(name, s[3..]));
    } else if s[0] == '"' || s[0] == '\'' {
      var n := StringLen(s);
      var k := Inner(s, n);
      var rest := Pieces(s[n..]);
      assert Pieces(s) == [Lit([s[0]]), Val(s[1..k]), Lit(s[k..n])] + rest;
      RenderThree([s[0]], s[1..k], s[k..n], rest, name, mask, out);
    } else {
      RenderCons(Lit([s[0]]), Pieces(s[1..]), name, mask);
      SeqAssoc(out, [s[0]], Render(Pieces(s[1..]), name, mask));
    }
  }

  lemma RenderEmpty(name: string, mask: Mask)
    ensures Render([], name, mask) == ""
  {
  }

  lemma RenderCons(p: Piece, ps: seq<Piece>, name: string, mask: Mask)
    ensures Render([p] + ps, name, mask) == Shown(p, name, mask) + Render(ps, name, mask)
  {
    assert ([p] + ps)[1..] == ps;
  }

  lemma RenderThree(a: string, v: string, c: string, rest: seq<Piece>, name: string, mask: Mask, out: string)
    ensures out + Render([Lit(a), Val(v), Lit(c)] + rest, name, mask) ==
              out + a + mask(name, v) + c + Render(rest, name, mask)
  {
    hide Render;
    assert [Lit(a), Val(v), Lit(c)] + rest == [Lit(a)] + ([Val(v)] + ([Lit(c)] + rest));
    RenderCons(Lit(a), [Val(v)] + ([Lit(c)] + rest), name, mask);
    RenderCons(Val(v), [Lit(c)] + rest, name, mask);
    RenderCons(Lit(c), rest, name, mask);
    var r := Render(rest, name, mask);
    SeqAssoc(out + a + mask(name, v), c, r);
    SeqAssoc(out + a, mask(name, v), c + r);
    SeqAssoc(out, a, mask(name, v) + (c + r));
  }

  // ----- what a mask can and cannot do

  /** A mask that hands every value back leaves the line as it is. */
  lemma {:induction false} PiecesSpell(s: string, name: string, mask: Mask)
    requires forall n, v :: mask(n, v) == v
    ensures Render(Pieces(s), name, mask) == s
    decreases |s|
  {
    hide Render, StringLen, Inner, Pieces;
    if s == "" {
      RenderNothing(name, mask);
    } else {
      PiecesStep(s, name, mask, "");
      EmptyLeft(Render(Pieces(s), name, mask));
      if s[0] == '#' {
        EmptyLeft(s);
      } else if QQQ <= s || LLL <= s {
        EmptyLeft(s[..3]);
      } else {
        EmptyLeft([s[0]]);
        if s[0] == '"' || s[0] == '\'' {
          PiecesSpell(s[StringLen(s)..], name, mask);
          Reassembled(s, Inner(s, StringLen(s)), StringLen(s));
        } else {
          PiecesSpell(s[1..], name, mask);
          assert [s[0]] + s[1..] == s;
        }
      }
    }
  }

  lemma EmptyLeft(s: string)
    ensures "" + s == s
  {
  }

  lemma Reassembled(s: string, k: nat, n: nat)
    requires s != "" && 1 <= k <= n <= |s|
    ensures [s[0]] + s[1..k] + s[k..n] + s[n..] == s
  {
  }

  lemma IdentityMask(line: string, mask: Mask)
    requires forall n, v :: mask(n, v) == v
    ensures MaskedLine(line, mask) == line
  {
    hide Classify, First, KeyOf;
    PiecesSpell(line[ValuesAt(line)..], NameOf(line), mask);
    assert line == line[..ValuesAt(line)] + line[ValuesAt(line)..];
  }

  /** Only what is offered matters: masks that agree on the values of a line show it alike. */
  lemma {:induction false} RenderAlike(ps: seq<Piece>, name: string, f: Mask, g: Mask)
    requires forall v :: v in Values(ps) ==> f(name, v) == g(name, v)
    ensures Render(ps, name, f) == Render(ps, name, g)
  {
    if ps != [] { RenderAlike(ps[1..], name, f, g); }
  }

  lemma OnlyValuesChange(line: string, f: Mask, g: Mask)
    requires forall v :: v in Offered(line) ==> f(NameOf(line), v) == g(NameOf(line), v)
    ensures MaskedLine(line, f) == MaskedLine(line, g)
  {
    hide Classify, First, KeyOf, Pieces;
    if Classify(line).Other? { RenderAlike(Pieces(line[ValuesAt(line)..]), NameOf(line), f, g); }
  }

  // ----- arrays of strings

  function Quoted(xs: seq<string>): seq<string> {
    seq(|xs|, i requires 0 <= i < |xs| => Quote(xs[i]))
  }

  function Escaped(xs: seq<string>): seq<string> {
    seq(|xs|, i requires 0 <= i < |xs| => EscapeAll(xs[i]))
  }

  function TomlStringArray(xs: seq<string>): string {
    "[" + Join(Quoted(xs), ", ") + "]"
  }

  method TomlStringArrayOf(xs: seq<string>) returns (out: string)
    ensures out == TomlStringArray(xs)
  {
    var quoted := [];
    for i := 0 to |xs|
      invariant quoted == Quoted(xs[..i])
    {
      var q := TomlString(xs[i]);
      assert xs[..i + 1] == xs[..i] + [xs[i]];
      quoted := quoted + [q];
    }
    assert xs[..|xs|] == xs;
    out := "[" + Join(quoted, ", ") + "]";
  }

  /** A quoted string offers its text, escaped, as one value, and the scan goes on behind it. */
  lemma QuoteOffers(x: string, rest: string)
    requires rest == "" || rest[0] != '"'
    ensures Values(Pieces(Quote(x) + rest)) == [EscapeAll(x)] + Values(Pieces(rest))
  {
    hide EscapeAll, Pieces, Values, BasicLen;
    var e := EscapeAll(x);
    EscapeAllScans(x, rest);
    EscapedStart(x);
    assert Quote(x) + rest == "\"" + e + "\"" + rest;
    QuotedPieces(e, rest);
    ValuesThree("\"", e, "\"", Pieces(rest));
  }

  lemma QuotedPieces(e: string, rest: string)
    requires BasicLen(e + "\"" + rest) == |e| + 1
    requires (e != "" ==> e[0] != '"') && (rest == "" || rest[0] != '"')
    ensures Pieces("\"" + e + "\"" + rest) == [Lit("\""), Val(e), Lit("\"")] + Pieces(rest)
  {
    hide BasicLen;
    var s := "\"" + e + "\"" + rest;
    NotTriple(e, rest);
    QuotedSlices(e, rest);
    assert StringLen(s) == |e| + 2 && Inner(s, |e| + 2) == |e| + 1;
  }

  lemma QuotedSlices(e: string, rest: string)
    ensures var s := "\"" + e + "\"" + rest;
            && s[0] == '"' && s[1..] == e + "\"" + rest && s[|e| + 1] == '"'
            && s[1..|e| + 1] == e && s[|e| + 1..|e| + 2] == "\"" && s[|e| + 2..] == rest && [s[0]] == "\""
  {
  }

  lemma EscapedStart(x: string)
    ensures EscapeAll(x) != "" ==> EscapeAll(x)[0] != '"'
  {
    if x != "" {
      EscapeDecodes(x[0], EscapeAll(x[1..]));
    }
  }

  lemma NotTriple(e: string, rest: string)
    requires (e != "" ==> e[0] != '"') && (rest == "" || rest[0] != '"')
    ensures var s := "\"" + e + "\"" + rest; !(QQQ <= s) && !(LLL <= s)
  {
    var s := "\"" + e + "\"" + rest;
    assert e != "" ==> s[1] == e[0];
    assert e == "" && rest != "" ==> s[2] == rest[0];
    assert s[0] == '"';
  }

  lemma ValuesThree(a: string, v: string, c: string, rest: seq<Piece>)
    ensures Values([Lit(a), Val(v), Lit(c)] + rest) == [v] + Values(rest)
  {
    hide Values;
    assert [Lit(a), Val(v), Lit(c)] + rest == [Lit(a)] + ([Val(v)] + ([Lit(c)] + rest));
    ValuesCons(Lit(a), [Val(v)] + ([Lit(c)] + rest));
    ValuesCons(Val(v), [Lit(c)] + rest);
    ValuesCons(Lit(c), rest);
  }

  lemma ValuesCons(p: Piece, ps: seq<Piece>)
    ensures Values([p] + ps) == (if p.Val? then [p.text] else []) + Values(ps)
  {
    assert ([p] + ps)[1..] == ps;
  }

  /** A character outside strings offers nothing. */
  lemma PlainOffers(c: char, rest: string)
    requires c != '#' && c != '"' && c != '\''
    ensures Values(Pieces([c] + rest)) == Values(Pieces(rest))
  {
    var s := [c] + rest;
    assert s[0] == c && s[1..] == rest;
    assert QQQ[0] == '"' && LLL[0] == '\'';
    assert !(QQQ <= s) && !(LLL <= s);
    var ps := [Lit([c])] + Pieces(rest);
    assert Pieces(s) == ps;
    assert ps[1..] == Pieces(rest);
  }

  lemma {:induction false} ElementsOffer(xs: seq<string>)
    ensures Values(Pieces(Join(Quoted(xs), ", ") + "]")) == Escaped(xs)
  {
    hide Pieces, Values, Quote, EscapeAll;
    if xs == [] {
      assert Join(Quoted(xs), ", ") + "]" == [']'] + "";
      PlainOffers(']', "");
      NothingOffered();
    } else if |xs| == 1 {
      assert Quoted(xs)[0] == Quote(xs[0]);
      QuoteOffers(xs[0], "]");
      assert "]" == [']'] + "";
      PlainOffers(']', "");
      NothingOffered();
      assert Escaped(xs) == [EscapeAll(xs[0])];
    } else {
      ElementsOffer(xs[1..]);
      assert Quoted(xs)[1..] == Quoted(xs[1..]);
      var more := Join(Quoted(xs[1..]), ", ") + "]";
      var rest := ", " + more;
      JoinedFirst(Quoted(xs));
      assert Join(Quoted(xs), ", ") + "]" == Quote(xs[0]) + rest;
      QuoteOffers(xs[0], rest);
      assert rest == [','] + ([' '] + more);
      PlainOffers(',', [' '] + more);
      PlainOffers(' ', more);
      assert Escaped(xs) == [EscapeAll(xs[0])] + Escaped(xs[1..]);
    }
  }

  lemma JoinedFirst(qs: seq<string>)
    requires |qs| > 1
    ensures Join(qs, ", ") + "]" == qs[0] + (", " + (Join(qs[1..], ", ") + "]"))
  {
  }

  lemma NothingOffered()
    ensures Values(Pieces("")) == []
  {
  }

  /**
   * An array of strings the dashboard wrote offers exactly one value per element, in order, under the key of its line:
   * a two-key rotation still looks like two keys. Each decodes back to its element, unless that holds U+007F.
   */
  lemma ArrayOffersElements(key: string, xs: seq<string>)
    requires IsBareId(key)
    ensures var line := key + " = " + TomlStringArray(xs);
            && NameOf(line) == key && Offered(line) == Escaped(xs)
            && forall i :: 0 <= i < |xs| && DEL !in xs[i] ==> DecodeBasic("\"" + Offered(line)[i] + "\"") == Some(xs[i])
  {
    hide Classify, KeyOf, First, Pieces, Values, EscapeAll, DecodeBasic, Join;
    var written := TomlStringArray(xs);
    var line := key + " = " + written;
    KeyedByBare(key, written);
    ElementsOffer(xs);
    var inner := Join(Quoted(xs), ", ") + "]";
    assert written == ['['] + inner;
    assert line[ValuesAt(line)..] == [' '] + (['['] + inner);
    PlainOffers(' ', ['['] + inner);
    PlainOffers('[', inner);
    forall i | 0 <= i < |xs| && DEL !in xs[i] ensures DecodeBasic("\"" + Escaped(xs)[i] + "\"") == Some(xs[i]) {
      QuoteDecodes(xs[i]);
    }
  }

  /** A line that starts with a bare key and an equals sign is an assignment to it. */
  lemma KeyedByBare(key: string, value: string)
    requires IsBareId(key)
    ensures var line := key + " = " + value;
            && Classify(line) == Other && KeyOf(line) == Some(key)
            && ValuesAt(line) == |key| + 2 && line[|key| + 2..] == " " + value
  {
    hide Trim, First, Classify;
    var line := key + " = " + value;
    assert forall i :: 0 <= i < |key| ==> IsBare(key[i]) && line[i] == key[i];
    assert line[|key|] == ' ' && line[|key| + 1] == '=';
    assert First(line, '=') == |key| + 1 && line[..|key| + 1] == key + " ";
    KeyTrimmed(key);
    AssignmentIsOther(line, key);
  }
}
