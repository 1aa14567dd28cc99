/** The line diff shown before a configuration file is changed. */
module Diffs {
  import opened Text

  datatype Op = Same | Del | Add

  datatype DiffLine<T> = DiffLine(op: Op, text: T)

  /** Length of the longest common subsequence, by the recurrence that fills the table. */
  function Lcs<T(==)>(a: seq<T>, b: seq<T>): (n: nat)
    decreases |a| + |b|
  {
    if a == [] || b == [] then 0
    else if a[0] == b[0] then Lcs(a[1..], b[1..]) + 1
    else
      var skipA, skipB := Lcs(a[1..], b), Lcs(a, b[1..]);
      if skipA < skipB then skipB else skipA
  }

  /** The walk through the table: equal lines are kept, and otherwise a deletion goes before an addition on a tie. */
  function DiffOf<T(==)>(a: seq<T>, b: seq<T>): seq<DiffLine<T>>
    decreases |a| + |b|
  {
    if a == [] && b == [] then []
    else if b == [] then [DiffLine(Del, a[0])] + DiffOf(a[1..], b)
    else if a == [] then [DiffLine(Add, b[0])] + DiffOf(a, b[1..])
    else if a[0] == b[0] then [DiffLine(Same, a[0])] + DiffOf(a[1..], b[1..])
    else if Lcs(a[1..], b) >= Lcs(a, b[1..]) then [DiffLine(Del, a[0])] + DiffOf(a[1..], b)
    else [DiffLine(Add, b[0])] + DiffOf(a, b[1..])
  }

  /** The texts of a diff's lines that are in one of two kinds. */
  function Texts<T>(d: seq<DiffLine<T>>, x: Op, y: Op): (r: seq<T>)
    ensures |r| <= |d|
  {
    if d == [] then []
    else (if d[0].op == x || d[0].op == y then [d[0].text] else []) + Texts(d[1..], x, y)
  }

  /** The file before, as a diff tells it, and the file after. */
  function Before<T>(d: seq<DiffLine<T>>): seq<T> {
    Texts(d, Same, Del)
  }

  function After<T>(d: seq<DiffLine<T>>): seq<T> {
    Texts(d, Same, Add)
  }

  function Kept<T>(d: seq<DiffLine<T>>): seq<T> {
    Texts(d, Same, Same)
  }

  /** The number of lines of one kind. */
  function Tally<T>(d: seq<DiffLine<T>>, op: Op): nat {
    |Texts(d, op, op)|
  }

  /** s arises from a by leaving elements out. */
  predicate Subsequence<T(==)>(s: seq<T>, a: seq<T>) {
    if s == [] then true
    else if a == [] then false
    else (s[0] == a[0] && Subsequence(s[1..], a[1..])) || Subsequence(s, a[1..])
  }

  lemma {:induction false} SubsequenceRest<T>(s: seq<T>, a: seq<T>)
    requires Subsequence(s, a) && s != []
    ensures Subsequence(s[1..], a) && a != [] && Subsequence(s[1..], a[1..])
  {
    if Subsequence(s, a[1..]) {
      SubsequenceRest(s, a[1..]);
    } else if |s| > 1 {
      SubsequenceRest(s[1..], a[1..]);
    }
  }

  /** No common subsequence is longer than the recurrence says. */
  lemma {:induction false} LcsLongest<T>(s: seq<T>, a: seq<T>, b: seq<T>)
    requires Subsequence(s, a) && Subsequence(s, b)
    ensures |s| <= Lcs(a, b)
    decreases |a| + |b|
  {
    if s != [] {
      SubsequenceRest(s, a);
      SubsequenceRest(s, b);
      if a[0] == b[0] {
        LcsLongest(s[1..], a[1..], b[1..]);
      } else if s[0] == a[0] {
        LcsLongest(s, a, b[1..]);
      } else {
        LcsLongest(s, a[1..], b);
      }
    }
  }

  /** Any diff's kept lines are common to the files it tells, and its other lines are the deleted and the added ones. */
  lemma {:induction false} KeptIsCommon<T>(d: seq<DiffLine<T>>)
    ensures Subsequence(Kept(d), Before(d)) && Subsequence(Kept(d), After(d))
    ensures |Before(d)| == Tally(d, Same) + Tally(d, Del) && |After(d)| == Tally(d, Same) + Tally(d, Add)
  {
    if d != [] {
      KeptIsCommon(d[1..]);
      var rest := d[1..];
      match d[0].op {
        case Same =>
          assert Before(d)[1..] == Before(rest) && After(d)[1..] == After(rest) && Kept(d)[1..] == Kept(rest);
        case Del => assert Before(d)[1..] == Before(rest) && Kept(d) == Kept(rest) && After(d) == After(rest);
        case Add => assert After(d)[1..] == After(rest) && Kept(d) == Kept(rest) && Before(d) == Before(rest);
      }
    }
  }

  lemma {:induction false} DiffTells<T>(a: seq<T>, b: seq<T>)
    ensures Before(DiffOf(a, b)) == a && After(DiffOf(a, b)) == b
    ensures Tally(DiffOf(a, b), Same) == Lcs(a, b)
    decreases |a| + |b|
  {
    if a == [] && b == [] {
    } else if b == [] || (a != [] && a[0] != b[0] && Lcs(a[1..], b) >= Lcs(a, b[1..])) {
      DiffTells(a[1..], b);
      Cons(DiffLine(Del, a[0]), DiffOf(a[1..], b));
      assert a == [a[0]] + a[1..];
    } else if a == [] || a[0] != b[0] {
      DiffTells(a, b[1..]);
      Cons(DiffLine(Add, b[0]), DiffOf(a, b[1..]));
      assert b == [b[0]] + b[1..];
    } else {
      DiffTells(a[1..], b[1..]);
      Cons(DiffLine(Same, a[0]), DiffOf(a[1..], b[1..]));
      assert a == [a[0]] + a[1..] && b == [b[0]] + b[1..];
    }
  }

  lemma Cons<T>(l: DiffLine<T>, d: seq<DiffLine<T>>)
    ensures forall x, y :: Texts([l] + d, x, y) == (if l.op == x || l.op == y then [l.text] else []) + Texts(d, x, y)
  {
    assert ([l] + d)[1..] == d;
  }

  /**
   * The diff is correct and minimal: it tells both files, it keeps as many lines as any subsequence the two have in
   * common, and no diff that tells them adds and deletes fewer lines.
   */
  lemma DiffMinimal<T>(a: seq<T>, b: seq<T>, s: seq<T>, other: seq<DiffLine<T>>)
    requires Subsequence(s, a) && Subsequence(s, b)
    requires Before(other) == a && After(other) == b
    ensures var d := DiffOf(a, b);
            && Before(d) == a && After(d) == b
            && Subsequence(Kept(d), a) && Subsequence(Kept(d), b) && |s| <= Tally(d, Same)
            && Tally(d, Add) + Tally(d, Del) <= Tally(other, Add) + Tally(other, Del)
  {
    DiffTells(a, b);
    KeptIsCommon(DiffOf(a, b));
    LcsLongest(s, a, b);
    KeptIsCommon(other);
    LcsLongest(Kept(other), a, b);
  }

  function Rank(op: Op): nat {
    match op case Same => 0 case Del => 1 case Add => 2
  }

  /** Where the two diffs part, d keeps a line or deletes one first. */
  predicate NotLater<T(==)>(d: seq<DiffLine<T>>, e: seq<DiffLine<T>>) {
    d == [] || (e != [] && (Rank(d[0].op) < Rank(e[0].op) || (d[0] == e[0] && NotLater(d[1..], e[1..]))))
  }

  /**
   * Of all the diffs that tell the two files and keep as many lines, this is the one that keeps a line as soon as it
   * can and puts deletions before additions. That fixes every line of it.
   */
  lemma {:induction false} DiffFirst<T>(a: seq<T>, b: seq<T>, other: seq<DiffLine<T>>)
    requires Before(other) == a && After(other) == b && Tally(other, Same) == Tally(DiffOf(a, b), Same)
    ensures NotLater(DiffOf(a, b), other)
    decreases |other|
  {
    hide DiffOf, Lcs;
    hide Texts;
    DiffTells(a, b);
    if other != [] {
      FirstTold(other);
      var rest := other[1..];
      var a', b' := Before(rest), After(rest);
      KeptIsCommon(rest);
      LcsLongest(Kept(rest), a', b');
      DiffStep(a, b);
      if other[0].op == DiffOf(a, b)[0].op {
        DiffTells(a', b');
        DiffFirst(a', b', rest);
      }
    } else {
      NothingTold<T>();
      DiffOfNothing<T>();
    }
  }

  lemma NothingTold<T>()
    ensures Before<T>([]) == [] && After<T>([]) == []
  {
  }

  lemma DiffOfNothing<T>()
    ensures DiffOf<T>([], []) == []
  {
  }

  lemma FirstTold<T>(d: seq<DiffLine<T>>)
    requires d != []
    ensures Tally(d, Same) == Tally(d[1..], Same) + if d[0].op == Same then 1 else 0
    ensures Told(Before(d), d[0].op != Add, d[0].text, Before(d[1..]))
    ensures Told(After(d), d[0].op != Del, d[0].text, After(d[1..]))
  {
    assert d == [d[0]] + d[1..];
    Cons(d[0], d[1..]);
  }

  predicate Told<T(==)>(a: seq<T>, here: bool, x: T, rest: seq<T>) {
    if here then a != [] && a[0] == x && a[1..] == rest else a == rest
  }

  lemma DiffStep<T>(a: seq<T>, b: seq<T>)
    requires a != [] || b != []
    ensures var d := DiffOf(a, b);
            d != [] &&
            if a != [] && b != [] && a[0] == b[0] then
              d[0] == DiffLine(Same, a[0]) && d[1..] == DiffOf(a[1..], b[1..]) && Lcs(a, b) == Lcs(a[1..], b[1..]) + 1
            else if a != [] && (b == [] || Lcs(a[1..], b) >= Lcs(a, b[1..])) then
              d[0] == DiffLine(Del, a[0]) && d[1..] == DiffOf(a[1..], b) && Lcs(a, b) == Lcs(a[1..], b)
            else
              b != [] && d[0] == DiffLine(Add, b[0]) && d[1..] == DiffOf(a, b[1..]) && Lcs(a, b) == Lcs(a, b[1..])
              && (a != [] ==> Lcs(a[1..], b) < Lcs(a, b))
  {
  }

  lemma {:induction false} DiffOfEqual<T>(a: seq<T>)
    ensures forall l :: l in DiffOf(a, a) ==> l.op == Same
  {
    if a != [] { DiffOfEqual(a[1..]); }
  }

  lemma {:induction false} AllSame<T>(d: seq<DiffLine<T>>)
    requires forall l :: l in d ==> l.op == Same
    ensures Before(d) == After(d)
  {
    if d != [] {
      AllSame(d[1..]);
    }
  }

  /** A diff shows a change exactly when the two lists of lines differ. */
  lemma ChangedIff<T>(a: seq<T>, b: seq<T>)
    ensures (exists l :: l in DiffOf(a, b) && l.op != Same) <==> a != b
  {
    if a == b {
      DiffOfEqual(a);
    } else {
      DiffTells(a, b);
      if forall l :: l in DiffOf(a, b) ==> l.op == Same { AllSame(DiffOf(a, b)); }
    }
  }

  /** The rows of the table from i on are done. */
  ghost predicate Filled<T>(lcs: array2<nat>, a: seq<T>, b: seq<T>, i: nat)
    reads lcs
  {
    && lcs.Length0 == |a| + 1 && lcs.Length1 == |b| + 1
    && forall x, y :: i <= x <= |a| && 0 <= y <= |b| ==> lcs[x, y] == Lcs(a[x..], b[y..])
  }

  /** The outer loop: fills the table from its last row up. */
  method Table<T(==)>(a: seq<T>, b: seq<T>) returns (lcs: array2<nat>)
    ensures fresh(lcs) && Filled(lcs, a, b, 0)
  {
    lcs := new nat[|a| + 1, |b| + 1]((i, j) => 0);
    var i := |a|;
    while i > 0
      invariant 0 <= i <= |a| && Filled(lcs, a, b, i)
      invariant forall x :: 0 <= x <= |a| ==> lcs[x, |b|] == 0
    {
      i := i - 1;
      Row(lcs, a, b, i);
    }
  }

  /** The inner loop: fills row i from its last column back, out of the row below it. */
  method Row<T(==)>(lcs: array2<nat>, a: seq<T>, b: seq<T>, i: nat)
    requires i < |a| && Filled(lcs, a, b, i + 1) && lcs[i, |b|] == 0
    modifies lcs
    ensures Filled(lcs, a, b, i)
    ensures forall x, y :: 0 <= x <= |a| && 0 <= y <= |b| && x != i ==> lcs[x, y] == old(lcs[x, y])
  {
    hide Lcs;
    LcsEdge(a[i..], b[|b|..]);
    var j := |b|;
    while j > 0
      invariant 0 <= j <= |b|
      invariant forall x, y :: 0 <= x <= |a| && 0 <= y <= |b| && x != i ==> lcs[x, y] == old(lcs[x, y])
      invariant forall y :: j <= y <= |b| ==> lcs[i, y] == Lcs(a[i..], b[y..])
    {
      j := j - 1;
      LcsStep(a, b, i, j);
      if a[i] == b[j] {
        lcs[i, j] := lcs[i + 1, j + 1] + 1;
      } else {
        lcs[i, j] := if lcs[i + 1, j] < lcs[i, j + 1] then lcs[i, j + 1] else lcs[i + 1, j];
      }
    }
  }

  lemma LcsEdge<T>(a: seq<T>, b: seq<T>)
    requires b == []
    ensures Lcs(a, b) == 0
  {
  }

  lemma LcsStep<T>(a: seq<T>, b: seq<T>, i: nat, j: nat)
    requires i < |a| && j < |b|
    ensures Lcs(a[i..], b[j..]) == if a[i] == b[j] then Lcs(a[i + 1..], b[j + 1..]) + 1
                                   else if Lcs(a[i + 1..], b[j..]) < Lcs(a[i..], b[j + 1..])
                                   then Lcs(a[i..], b[j + 1..])
                                   else Lcs(a[i + 1..], b[j..])
  {
    assert a[i..][1..] == a[i + 1..] && b[j..][1..] == b[j + 1..];
  }

  /** The lines written so far and the diff of what is left make up the whole diff. */
  ghost predicate Walked<T>(a: seq<T>, b: seq<T>, i: nat, j: nat, out: seq<DiffLine<T>>) {
    i <= |a| && j <= |b| && out + DiffOf(a[i..], b[j..]) == DiffOf(a, b)
  }

  /** Diff over lists of lines: the table, the two-index walk, and the two tails. */
  method LineDiff<T(==)>(a: seq<T>, b: seq<T>) returns (out: seq<DiffLine<T>>)
    ensures out == DiffOf(a, b)
  {
    hide DiffOf, Lcs;
    var lcs := Table(a, b);
    out := [];
    var i, j := 0, 0;
    WalkBegins(a, b);
    while i < |a| && j < |b|
      invariant Walked(a, b, i, j, out) && Filled(lcs, a, b, 0)
      decreases |a| - i + |b| - j
    {
      WalkStep(a, b, i, j, out);
      if a[i] == b[j] {
        out := out + [DiffLine(Same, a[i])];
        i, j := i + 1, j + 1;
      } else if lcs[i + 1, j] >= lcs[i, j + 1] {
        out := out + [DiffLine(Del, a[i])];
        i := i + 1;
      } else {
        out := out + [DiffLine(Add, b[j])];
        j := j + 1;
      }
    }
    while i < |a|
      invariant Walked(a, b, i, j, out) && (i < |a| ==> j == |b|)
    {
      TailStep(a, b, i, j, out);
      out := out + [DiffLine(Del, a[i])];
      i := i + 1;
    }
    while j < |b|
      invariant Walked(a, b, i, j, out) && i == |a|
    {
      TailStep(a, b, i, j, out);
      out := out + [DiffLine(Add, b[j])];
      j := j + 1;
    }
    WalkEnds(a, b, out);
  }

  lemma WalkBegins<T>(a: seq<T>, b: seq<T>)
    ensures Walked(a, b, 0, 0, [])
  {
    assert a[0..] == a && b[0..] == b && [] + DiffOf(a, b) == DiffOf(a, b);
  }

  lemma WalkEnds<T>(a: seq<T>, b: seq<T>, out: seq<DiffLine<T>>)
    requires Walked(a, b, |a|, |b|, out)
    ensures out == DiffOf(a, b)
  {
    assert a[|a|..] == [] && b[|b|..] == [] && out + [] == out;
  }

  lemma WalkStep<T>(a: seq<T>, b: seq<T>, i: nat, j: nat, out: seq<DiffLine<T>>)
    requires i < |a| && j < |b| && Walked(a, b, i, j, out)
    ensures if a[i] == b[j] then Walked(a, b, i + 1, j + 1, out + [DiffLine(Same, a[i])])
            else if Lcs(a[i + 1..], b[j..]) >= Lcs(a[i..], b[j + 1..])
            then Walked(a, b, i + 1, j, out + [DiffLine(Del, a[i])])
            else Walked(a, b, i, j + 1, out + [DiffLine(Add, b[j])])
  {
    assert a[i..][1..] == a[i + 1..] && b[j..][1..] == b[j + 1..];
    Snoc(out, DiffLine(Same, a[i]), DiffOf(a[i + 1..], b[j + 1..]));
    Snoc(out, DiffLine(Del, a[i]), DiffOf(a[i + 1..], b[j..]));
    Snoc(out, DiffLine(Add, b[j]), DiffOf(a[i..], b[j + 1..]));
  }

  lemma TailStep<T>(a: seq<T>, b: seq<T>, i: nat, j: nat, out: seq<DiffLine<T>>)
    requires Walked(a, b, i, j, out) && (i == |a|) != (j == |b|)
    ensures i < |a| ==> Walked(a, b, i + 1, j, out + [DiffLine(Del, a[i])])
    ensures j < |b| ==> Walked(a, b, i, j + 1, out + [DiffLine(Add, b[j])])
  {
    if i < |a| {
      assert a[i..][1..] == a[i + 1..];
      Snoc(out, DiffLine(Del, a[i]), DiffOf(a[i + 1..], b[j..]));
    } else {
      assert b[j..][1..] == b[j + 1..];
      Snoc(out, DiffLine(Add, b[j]), DiffOf(a[i..], b[j + 1..]));
    }
  }

  lemma Snoc<T>(out: seq<T>, l: T, rest: seq<T>)
    ensures out + [l] + rest == out + ([l] + rest)
  {
  }

  /** Changed: a scan for a line that is not the same. */
  method Changed<T>(d: seq<DiffLine<T>>) returns (changed: bool)
    ensures changed <==> exists l :: l in d && l.op != Same
  {
    for i := 0 to |d|
      invariant forall k :: 0 <= k < i ==> d[k].op == Same
    {
      if d[i].op != Same { return true; }
    }
    return false;
  }

  /** Counts: how many lines were added and how many deleted. */
  method Counts<T>(d: seq<DiffLine<T>>) returns (added: nat, deleted: nat)
    ensures added == Tally(d, Add) && deleted == Tally(d, Del)
  {
    added, deleted := 0, 0;
    for i := 0 to |d|
      invariant added + Tally(d[i..], Add) == Tally(d, Add) && deleted + Tally(d[i..], Del) == Tally(d, Del)
    {
      assert d[i..][1..] == d[i + 1..];
      match d[i].op {
        case Add => added := added + 1;
        case Del => deleted := deleted + 1;
        case Same =>
      }
    }
  }

  function TrimNewline(s: string): string {
    if s != "" && s[|s| - 1] == '\n' then s[..|s| - 1] else s
  }

  /** splitLines: the lines of a file whose line ends are LF or CRLF; one trailing line end starts no line. */
  function SplitLines(b: string): seq<string> {
    var s := TrimNewline(CrlfToLf(b));
    if s == "" then [] else Split(s)
  }

  /** The lines of a file spell it, with bare newlines between them and whether or not one ends the last. */
  lemma LinesSpellFile(b: string)
    ensures var s, lines := CrlfToLf(b), SplitLines(b);
            && (lines == [] <==> s == "" || s == "\n")
            && (lines != [] ==> s == JoinLines(lines) + if s[|s| - 1] == '\n' then "\n" else "")
    ensures forall l :: l in SplitLines(b) ==> '\n' !in l
  {
    var s := CrlfToLf(b);
    SplitSpells(TrimNewline(s));
    if s != "" && s[|s| - 1] == '\n' { assert s == s[..|s| - 1] + "\n"; }
  }

  /** Diff of two files. */
  method Diff(before: string, after: string) returns (out: seq<DiffLine<string>>)
    ensures out == DiffOf(SplitLines(before), SplitLines(after))
  {
    out := LineDiff(SplitLines(before), SplitLines(after));
  }
}
