/** The string helpers of the bytes package that the editor is written with. */
module Text {
  import opened Wrappers

  /** The cutset " \t\r\n" that the editor trims lines with. */
  const SPACE: set<char> := {' ', '\t', '\r', '\n'}

  /** The cutset " \t" that keyOf trims a key with. */
  const BLANK: set<char> := {' ', '\t'}

  predicate AllIn(s: string, cut: set<char>) {
    forall i :: 0 <= i < |s| ==> s[i] in cut
  }

  function Drop(s: string, k: nat): string {
    if k <= |s| then s[k..] else ""
  }

  function TrimLeft(s: string, cut: set<char>): (r: string)
    ensures |r| <= |s| && r == s[|s| - |r|..]
    ensures forall i :: 0 <= i < |s| - |r| ==> s[i] in cut
    ensures r == "" || r[0] !in cut
  {
    if s != "" && s[0] in cut then
      var r := TrimLeft(s[1..], cut);
      SkipOne(s, r, cut);
      r
    else s
  }

  lemma SkipOne(s: string, r: string, cut: set<char>)
    requires s != "" && s[0] in cut && |r| <= |s[1..]| && r == s[1..][|s| - 1 - |r|..]
    requires forall i :: 0 <= i < |s[1..]| - |r| ==> s[1..][i] in cut
    ensures r == s[|s| - |r|..] && forall i :: 0 <= i < |s| - |r| ==> s[i] in cut
  {
    forall i | 0 <= i < |s| - |r| ensures s[i] in cut {
      if i > 0 { assert s[i] == s[1..][i - 1]; }
    }
  }

  function TrimRight(s: string, cut: set<char>): (r: string)
    ensures |r| <= |s| && r == s[..|r|]
    ensures forall i :: |r| <= i < |s| ==> s[i] in cut
    ensures r == "" || r[|r| - 1] !in cut
  {
    if s != "" && s[|s| - 1] in cut then
      var r := TrimRight(s[..|s| - 1], cut);
      TakeOne(s, |r|);
      r
    else s
  }

  lemma TakeOne(s: string, k: nat)
    requires k < |s|
    ensures s[..|s| - 1][..k] == s[..k]
    ensures forall i :: 0 <= i < |s| - 1 ==> s[i] == s[..|s| - 1][i]
  {
  }

  function Trim(s: string, cut: set<char>): (r: string)
    ensures |r| <= |s|
    ensures r == "" || (r[0] !in cut && r[|r| - 1] !in cut)
  {
    TrimRight(TrimLeft(s, cut), cut)
  }

  /** The untrimmed text is the trimmed one between two runs of cutset characters. */
  lemma TrimParts(s: string, cut: set<char>) returns (left: string, right: string)
    ensures s == left + Trim(s, cut) + right
    ensures AllIn(left, cut) && AllIn(right, cut)
  {
    var l := TrimLeft(s, cut);
    var r := TrimRight(l, cut);
    left := SplitAt(s, |s| - |l|);
    right := l[|r|..];
    var kept := SplitAt(l, |r|);
    SeqAssoc(left, kept, right);
  }

  lemma SplitAt(s: string, k: nat) returns (left: string)
    requires k <= |s|
    ensures left == s[..k] && s == left + s[k..]
  {
    left := s[..k];
  }

  lemma SeqAssoc(a: string, b: string, c: string)
    ensures a + (b + c) == a + b + c
  {
  }

  /** ... and such a decomposition determines it. */
  lemma TrimUnique(left: string, m: string, right: string, cut: set<char>)
    requires AllIn(left, cut) && AllIn(right, cut)
    requires m == "" || (m[0] !in cut && m[|m| - 1] !in cut)
    ensures Trim(left + m + right, cut) == m
  {
    SeqAssoc(left, m, right);
    TrimLeftSkips(left, m + right, cut);
    if m == "" {
      assert m + right == right + "";
      TrimLeftSkips(right, "", cut);
    } else {
      assert (m + right)[0] == m[0];
    }
    TrimRightSkips(m, right, cut);
  }

  lemma TrimStart(s: string, cut: set<char>)
    requires s != "" && s[0] !in cut
    ensures Trim(s, cut) != "" && Trim(s, cut)[0] == s[0]
  {
    assert TrimLeft(s, cut) == s;
    var r := TrimRight(s, cut);
    assert |r| > 0;
  }

  lemma {:induction false} TrimLeftSkips(left: string, s: string, cut: set<char>)
    requires AllIn(left, cut)
    ensures TrimLeft(left + s, cut) == TrimLeft(s, cut)
  {
    if left == "" {
      assert left + s == s;
    } else {
      assert (left + s)[0] == left[0] && (left + s)[1..] == left[1..] + s;
      TrimLeftSkips(left[1..], s, cut);
    }
  }

  lemma {:induction false} TrimRightSkips(s: string, right: string, cut: set<char>)
    requires AllIn(right, cut)
    ensures TrimRight(s + right, cut) == TrimRight(s, cut)
  {
    if right == "" {
      assert s + right == s;
    } else {
      var k := |right| - 1;
      assert (s + right)[|s| + k] == right[k] && (s + right)[..|s| + k] == s + right[..k];
      TrimRightSkips(s, right[..k], cut);
    }
  }

  /** The position of the first c in s, or |s| when there is none. */
  function First(s: string, c: char): (k: nat)
    ensures k <= |s| && forall i :: 0 <= i < k ==> s[i] != c
    ensures k < |s| ==> s[k] == c
  {
    if s == "" || s[0] == c then 0 else 1 + First(s[1..], c)
  }

  // ----- sequences

  lemma TakeTake<T>(s: seq<T>, k: nat, n: nat)
    requires k <= n <= |s|
    ensures s[..n][..k] == s[..k] && s[..n][k..] == s[k..][..n - k]
    ensures s[..n] == s[..k] + s[k..][..n - k]
  {
  }

  lemma DropDrop<T>(s: seq<T>, i: nat, e: nat)
    requires i <= e <= |s|
    ensures s[i..][..e - i] == s[i..e] && s[i..][e - i..] == s[e..]
  {
  }

  lemma ConcatAssoc<T>(a: seq<T>, b: seq<T>, c: seq<T>)
    ensures a + b + c == a + (b + c)
    ensures (a + b + c)[|a|..] == b + c
  {
  }

  lemma TakeConcat<T>(a: seq<T>, b: seq<T>, k: nat)
    ensures k <= |a| ==> (a + b)[..k] == a[..k]
    ensures |a| <= k <= |a + b| ==> (a + b)[..k] == a + b[..k - |a|]
  {
  }

  lemma Indexes<T>(a: seq<T>, x: T, b: seq<T>)
    ensures var s := a + [x] + b;
            && (forall i :: 0 <= i < |a| ==> s[i] == a[i]) && s[|a|] == x
            && (forall i :: 0 <= i < |b| ==> s[|a| + 1 + i] == b[i])
  {
  }

  predicate HasSuffix(s: string, suffix: string) {
    |suffix| <= |s| && s[|s| - |suffix|..] == suffix
  }

  /** src with the characters from start up to end replaced. */
  function Splice(src: string, start: nat, end: nat, repl: string): string
    requires start <= end <= |src|
  {
    src[..start] + repl + src[end..]
  }

  // ----- line endings

  function CrlfToLf(s: string): (r: string)
    ensures |r| <= |s|
  {
    if s == "" then ""
    else if "\r\n" <= s then "\n" + CrlfToLf(s[2..])
    else [s[0]] + CrlfToLf(s[1..])
  }

  function CrToLf(s: string): (r: string)
    ensures |r| == |s| && '\r' !in r
    ensures forall i :: 0 <= i < |s| ==> r[i] == if s[i] == '\r' then '\n' else s[i]
  {
    if s == "" then "" else [if s[0] == '\r' then '\n' else s[0]] + CrToLf(s[1..])
  }

  function LfToCrlf(s: string): (r: string)
    ensures |r| >= |s|
  {
    if s == "" then ""
    else if s[0] == '\n' then "\r\n" + LfToCrlf(s[1..])
    else [s[0]] + LfToCrlf(s[1..])
  }

  const LF := "\n"
  const CRLF := "\r\n"

  function CountCrlf(s: string): nat {
    if s == "" then 0 else if CRLF <= s then 1 + CountCrlf(s[2..]) else CountCrlf(s[1..])
  }

  function CountLf(s: string): nat {
    if s == "" then 0 else (if s[0] == '\n' then 1 else 0) + CountLf(s[1..])
  }

  /** The line ending a file already uses; LF on a tie. */
  function DominantEol(src: string): (eol: string)
    ensures eol == LF || eol == CRLF
  {
    if CountCrlf(src) > CountLf(src) - CountCrlf(src) then CRLF else LF
  }

  /** Submitted text in the file's line ending. */
  function Normalise(b: string, eol: string): string {
    var lf := CrToLf(CrlfToLf(b));
    if eol != LF then LfToCrlf(lf) else lf
  }

  lemma {:induction false} LinesApart(x: string, t: string)
    requires '\r' !in x && '\n' !in x
    ensures CrlfToLf(x + t) == x + CrlfToLf(t) && LfToCrlf(x + t) == x + LfToCrlf(t)
  {
    if x == "" {
      assert x + t == t;
    } else {
      var y := x[1..];
      assert x[0] in x && '\r' !in y && '\n' !in y;
      LinesApart(y, t);
      assert x == [x[0]] + y;
      SeqAssoc([x[0]], y, t);
      PlainTurned(x[0], y + t);
      SeqAssoc([x[0]], y, CrlfToLf(t));
      SeqAssoc([x[0]], y, LfToCrlf(t));
    }
  }

  lemma PlainTurned(c: char, t: string)
    requires c != '\r' && c != '\n'
    ensures CrlfToLf([c] + t) == [c] + CrlfToLf(t) && LfToCrlf([c] + t) == [c] + LfToCrlf(t)
  {
    assert ([c] + t)[0] == c && ([c] + t)[1..] == t;
  }

  lemma EndTurned(e: string, rest: string)
    requires e == LF || e == CRLF || (e == "\r" && !(LF <= rest))
    ensures CrlfToLf(e + rest) == (if e == CRLF then LF else e) + CrlfToLf(rest)
  {
    var t := e + rest;
    if e == CRLF {
      assert t[2..] == rest && CRLF <= t;
    } else {
      assert t[0] == e[0] && t[1..] == rest;
      assert rest != "" ==> t[1] == rest[0];
      assert !(CRLF <= t);
    }
  }

  lemma {:induction false} CrApart(x: string, t: string)
    requires '\r' !in x
    ensures CrToLf(x + t) == x + CrToLf(t)
  {
    hide CrToLf;
    if x == "" {
      assert x + t == t;
    } else {
      var y := x[1..];
      assert x[0] in x && '\r' !in y;
      CrApart(y, t);
      assert x == [x[0]] + y;
      SeqAssoc([x[0]], y, t);
      CrPut(x[0], y + t);
      SeqAssoc([x[0]], y, CrToLf(t));
    }
  }

  lemma CrPut(c: char, t: string)
    ensures CrToLf([c] + t) == [if c == '\r' then '\n' else c] + CrToLf(t)
  {
    assert ([c] + t)[1..] == t;
  }

  lemma CrlfPut(t: string)
    ensures LfToCrlf(LF + t) == CRLF + LfToCrlf(t)
  {
    assert (LF + t)[1..] == t;
  }

  /** A line and its end, be that LF, CRLF or a lone CR, come out as the line and the file's line ending. */
  lemma NormaliseLine(x: string, e: string, rest: string, eol: string)
    requires '\r' !in x && '\n' !in x && (eol == LF || eol == CRLF)
    requires e == LF || e == CRLF || (e == "\r" && !(LF <= rest))
    ensures Normalise(x + (e + rest), eol) == x + (eol + Normalise(rest, eol)) && Normalise(x, eol) == x
  {
    hide CrlfToLf, CrToLf, LfToCrlf;
    LinesApart(x, e + rest);
    EndTurned(e, rest);
    var lf := CrlfToLf(rest);
    var c := if e == "\r" then '\r' else '\n';
    CrApart(x, [c] + lf);
    CrPut(c, lf);
    LinesApart(x, LF + CrToLf(lf));
    CrlfPut(CrToLf(lf));
    CrlfToLfKeeps(x);
    LinesApart(x, "");
    NothingTurned();
    assert x + "" == x;
  }

  lemma NothingTurned()
    ensures CrlfToLf("") == "" && LfToCrlf("") == ""
  {
  }

  /** Every carriage return starts a CRLF and every newline ends one. */
  predicate OnlyCrlf(s: string) {
    s == "" || (if CRLF <= s then OnlyCrlf(s[2..]) else s[0] != '\r' && s[0] != '\n' && OnlyCrlf(s[1..]))
  }

  lemma {:induction false} CrlfToLfKeeps(s: string)
    requires '\r' !in s
    ensures CrlfToLf(s) == s && CrToLf(s) == s
  {
    if s != "" {
      CrlfToLfKeeps(s[1..]);
      assert s[0] in s && s == [s[0]] + s[1..];
    }
  }

  lemma {:induction false} CrlfRoundTrip(s: string)
    requires OnlyCrlf(s)
    ensures '\r' !in CrlfToLf(s) && LfToCrlf(CrlfToLf(s)) == s
  {
    if s == "" {
    } else if CRLF <= s {
      CrlfRoundTrip(s[2..]);
      assert CrlfToLf(s)[1..] == CrlfToLf(s[2..]);
      assert s == CRLF + s[2..];
    } else {
      CrlfRoundTrip(s[1..]);
      assert CrlfToLf(s)[1..] == CrlfToLf(s[1..]);
    }
  }

  /** Text that already uses the file's line ending is stored exactly as written. */
  lemma NormaliseKeeps(b: string, eol: string)
    requires eol == LF ==> '\r' !in b
    requires eol != LF ==> OnlyCrlf(b)
    ensures Normalise(b, eol) == b
  {
    if eol == LF {
      CrlfToLfKeeps(b);
    } else {
      CrlfRoundTrip(b);
      CrlfToLfKeeps(CrlfToLf(b));
    }
  }

  lemma {:induction false} LfToCrlfOnlyCrlf(s: string)
    requires '\r' !in s
    ensures OnlyCrlf(LfToCrlf(s))
  {
    if s == "" {
    } else if s[0] == '\n' {
      LfToCrlfOnlyCrlf(s[1..]);
      assert LfToCrlf(s)[2..] == LfToCrlf(s[1..]);
    } else {
      LfToCrlfOnlyCrlf(s[1..]);
      assert LfToCrlf(s)[1..] == LfToCrlf(s[1..]);
    }
  }

  /** Normalising again changes nothing, so a save that normalises twice is a save that normalises once. */
  lemma NormaliseIdempotent(b: string, eol: string)
    ensures Normalise(Normalise(b, eol), eol) == Normalise(b, eol)
  {
    if eol != LF { LfToCrlfOnlyCrlf(CrToLf(CrlfToLf(b))); }
    NormaliseKeeps(Normalise(b, eol), eol);
  }

  lemma CountsCrlf(s: string)
    ensures CountCrlf(CRLF + s) == 1 + CountCrlf(s) && CountLf(CRLF + s) == 1 + CountLf(s)
  {
    var t := CRLF + s;
    assert t[0] == '\r' && t[1] == '\n' && t[2..] == s && t[1..][1..] == s && t[1..][0] == '\n';
    assert CountLf(t) == CountLf(t[1..]) && CountLf(t[1..]) == 1 + CountLf(t[1..][1..]);
  }

  lemma NoCounts()
    ensures CountCrlf("") == 0 && CountLf("") == 0
  {
  }

  lemma CountsPlain(c: char, s: string)
    requires c != '\r' && c != '\n'
    ensures CountCrlf([c] + s) == CountCrlf(s) && CountLf([c] + s) == CountLf(s)
  {
    var t := [c] + s;
    assert t[0] == c && t[1..] == s;
  }

  lemma CrlfThen(x: string, b: string)
    ensures CountCrlf(CRLF + x + b) == 1 + CountCrlf(x + b) && CountLf(CRLF + x + b) == 1 + CountLf(x + b)
    ensures CountCrlf(CRLF + x) == 1 + CountCrlf(x)
  {
    hide CountCrlf, CountLf;
    SeqAssoc(CRLF, x, b);
    CountsCrlf(x + b);
    CountsCrlf(x);
  }

  lemma PlainThen(c: char, x: string, b: string)
    requires c != '\r' && c != '\n'
    ensures CountCrlf([c] + x + b) == CountCrlf(x + b) && CountLf([c] + x + b) == CountLf(x + b)
    ensures CountCrlf([c] + x) == CountCrlf(x)
  {
    hide CountCrlf, CountLf;
    SeqAssoc([c], x, b);
    CountsPlain(c, x + b);
    CountsPlain(c, x);
  }

  lemma {:induction false} CountsAppendCrlf(a: string, b: string)
    requires OnlyCrlf(a)
    ensures CountCrlf(a + b) == CountCrlf(a) + CountCrlf(b)
    ensures CountLf(a + b) == CountCrlf(a) + CountLf(b)
  {
    hide CountCrlf, CountLf;
    if a == "" {
      assert a + b == b;
      NoCounts();
    } else if CRLF <= a {
      var x := a[2..];
      CountsAppendCrlf(x, b);
      CrlfThen(x, b);
      assert a == CRLF + x;
    } else {
      var x := a[1..];
      CountsAppendCrlf(x, b);
      PlainThen(a[0], x, b);
      assert a == [a[0]] + x;
    }
  }

  lemma {:induction false} OnlyCrlfCounts(s: string)
    requires OnlyCrlf(s)
    ensures CountLf(s) == CountCrlf(s)
  {
    CountsAppendCrlf(s, "");
    assert s + "" == s;
  }

  lemma {:induction false} NoCrCounts(s: string)
    requires '\r' !in s
    ensures CountCrlf(s) == 0
  {
    if s != "" {
      assert s[0] != CRLF[0];
      NoCrCounts(s[1..]);
    }
  }

  /** How many more line ends are CRLF than a bare newline. */
  function Tilt(s: string): int {
    2 * CountCrlf(s) - CountLf(s)
  }

  lemma TiltIsDominant(s: string)
    ensures DominantEol(s) == if Tilt(s) > 0 then CRLF else LF
  {
    hide CountCrlf, CountLf;
  }

  /** Text that ends at a line boundary. */
  predicate Whole(s: string) {
    s == "" || s[|s| - 1] == '\n'
  }

  /** Line ends add up over a cut at a line boundary. */
  lemma {:induction false} TiltAppend(a: string, b: string)
    requires Whole(a) || b == ""
    ensures Tilt(a + b) == Tilt(a) + Tilt(b)
  {
    var s := a + b;
    if a == "" {
      assert s == b;
    } else if b == "" {
      assert s == a;
    } else if CRLF <= a {
      TiltAppend(a[2..], b);
      assert s == CRLF + (a[2..] + b) && a == CRLF + a[2..];
      CountsCrlf(a[2..] + b);
      CountsCrlf(a[2..]);
    } else {
      TiltAppend(a[1..], b);
      assert s[0] == a[0] && s[1..] == a[1..] + b;
      assert !(CRLF <= s) by { assert |a| > 1 ==> s[1] == a[1]; }
    }
  }

  lemma TiltThree(a: string, x: string, b: string)
    requires Whole(a) && (Whole(x) || b == "")
    ensures Tilt(a + x + b) == Tilt(a) + Tilt(x) + Tilt(b)
  {
    hide Tilt;
    assert a + x + b == a + (x + b);
    TiltAppend(a, x + b);
    TiltAppend(x, b);
  }

  /** A line counts for its own end only. */
  lemma {:induction false} TiltOfLine(t: string, eol: string)
    requires '\n' !in t && (t != "" ==> t[|t| - 1] != '\r') && (eol == LF || eol == CRLF || eol == "")
    ensures Tilt(t + eol) == if eol == CRLF then 1 else if eol == LF then -1 else 0
  {
    var s := t + eol;
    if t == "" {
      assert s == eol;
      assert eol != "" ==> CountLf(eol[1..]) == CountLf(eol[1..][..]);
    } else {
      TiltOfLine(t[1..], eol);
      assert s[0] == t[0] && s[1..] == t[1..] + eol;
      assert !(CRLF <= s) by { assert |t| > 1 ==> s[1] == t[1]; }
    }
  }

  /** A cut at a line boundary leaves both parts with the line ending of the whole. */
  lemma {:induction false} OnlyCrlfCut(a: string, b: string)
    requires OnlyCrlf(a + b) && Whole(a)
    ensures OnlyCrlf(a) && OnlyCrlf(b)
  {
    var s := a + b;
    if a == "" {
      assert s == b;
    } else if CRLF <= s {
      assert |a| > 1 by { assert a[0] == s[0]; }
      assert s[2..] == a[2..] + b && s[1] == a[1];
      OnlyCrlfCut(a[2..], b);
    } else {
      assert s[0] == a[0] && s[1..] == a[1..] + b;
      assert !(CRLF <= a) by { assert |a| > 1 ==> a[1] == s[1]; }
      OnlyCrlfCut(a[1..], b);
    }
  }

  /** strings.Split(s, "\n"). */
  function Split(s: string): (lines: seq<string>)
    ensures lines != []
  {
    if s == "" then [""]
    else
      var rest := Split(s[1..]);
      if s[0] == '\n' then [""] + rest else [[s[0]] + rest[0]] + rest[1..]
  }

  function JoinLines(lines: seq<string>): string
    requires lines != []
  {
    if |lines| == 1 then lines[0] else lines[0] + "\n" + JoinLines(lines[1..])
  }

  /** A character put before the first of some lines. */
  lemma JoinPut(c: char, lines: seq<string>)
    requires lines != []
    ensures JoinLines([[c] + lines[0]] + lines[1..]) == [c] + JoinLines(lines)
  {
    hide JoinLines;
    var head, rest := lines[0], lines[1..];
    JoinCons(head, rest);
    JoinCons([c] + head, rest);
    assert lines == [head] + rest;
    if rest != [] {
      SeqAssoc([c], head, "\n");
      SeqAssoc([c], head + "\n", JoinLines(rest));
    }
  }

  lemma JoinCons(head: string, rest: seq<string>)
    ensures JoinLines([head] + rest) == if rest == [] then head else head + "\n" + JoinLines(rest)
  {
    assert ([head] + rest)[1..] == rest;
  }

  lemma {:induction false} SplitSpells(s: string)
    ensures JoinLines(Split(s)) == s && forall l :: l in Split(s) ==> '\n' !in l
  {
    if s != "" {
      var rest := Split(s[1..]);
      SplitSpells(s[1..]);
      assert s == [s[0]] + s[1..];
      if s[0] == '\n' {
        assert Split(s)[1..] == rest;
      } else {
        JoinPut(s[0], rest);
      }
    }
  }
}
