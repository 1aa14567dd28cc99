/**
 * How spool file names are written and read: fileName, requestIDFromName and enqueueNanosFromName. Go's %020d pads to
 * twenty places, sign included, so a time before 1970 puts a third dash into the name.
 */
module FileNames {
  import opened Wrappers
  import opened Names

  const TWO_63: int := 0x8000_0000_0000_0000

  /** The decimal digits of n in k places. */
  function Digits(n: nat, k: nat): (s: string)
    ensures |s| == k && forall i :: 0 <= i < k ==> '0' <= s[i] <= '9'
  {
    if k == 0 then "" else Digits(n / 10, k - 1) + [('0' as int + n % 10) as char]
  }

  /** %020d of an int64. */
  function Padded(t: int): (s: string)
    requires -TWO_63 <= t < TWO_63
    ensures |s| == 20
  {
    if t < 0 then "-" + Digits(-t, 19) else Digits(t, 20)
  }

  predicate Storable(n: Name) {
    -TWO_63 <= n.at < TWO_63
  }

  function Class(test: bool): string {
    if test then "0" else "1"
  }

  function FileName(n: Name): string
    requires Storable(n)
  {
    Class(n.test) + "-" + Padded(n.at) + "-" + n.id + SUFFIX
  }

  /** strings.TrimSuffix(s, ".json"). */
  function TrimJson(s: string): string {
    if |s| >= 5 && s[|s| - 5..] == SUFFIX then s[..|s| - 5] else s
  }

  /** strings.Cut at the first dash. */
  function Dash(s: string): (i: nat)
    ensures i <= |s| && (i < |s| ==> s[i] == '-') && forall j :: 0 <= j < i ==> s[j] != '-'
  {
    if s == "" || s[0] == '-' then 0 else 1 + Dash(s[1..])
  }

  /** strings.SplitN(s, "-", 3), where it has three parts. */
  function Split3(s: string): Option<(string, string, string)> {
    var i := Dash(s);
    if i == |s| then None
    else
      var rest := s[i + 1..];
      var j := Dash(rest);
      if j == |rest| then None else Some((s[..i], rest[..j], rest[j + 1..]))
  }

  function RequestIDFromName(name: string): string {
    var parts := Split3(TrimJson(name));
    if parts.None? then "" else parts.value.2
  }

  predicate IsDigit(c: char) {
    '0' <= c <= '9'
  }

  function DigitValue(c: char): nat
    requires IsDigit(c)
  {
    (c - '0') as nat
  }

  /** The value of a string of decimal digits, or None. */
  function Value(s: string): Option<nat> {
    if s == "" then Some(0)
    else
      var c, head := s[|s| - 1], Value(s[..|s| - 1]);
      if head.None? || !IsDigit(c) then None else Some(10 * head.value + DigitValue(c))
  }

  /** strconv.ParseInt(s, 10, 64): an optional sign, at least one digit, and no overflow. */
  function ParseInt(s: string): Option<int> {
    var signed := s != "" && (s[0] == '-' || s[0] == '+');
    var digits := if signed then s[1..] else s;
    var v := Value(digits);
    if digits == "" || v.None? then None
    else
      var n: int := if signed && s[0] == '-' then -(v.value as int) else v.value;
      if -TWO_63 <= n < TWO_63 then Some(n) else None
  }

  function EnqueueNanosFromName(name: string): Option<int> {
    var parts := Split3(TrimJson(name));
    if parts.None? then None else ParseInt(parts.value.1)
  }

  function Pow10(k: nat): nat {
    if k == 0 then 1 else 10 * Pow10(k - 1)
  }

  lemma {:induction false} DigitsValue(n: nat, k: nat)
    requires n < Pow10(k)
    ensures Value(Digits(n, k)) == Some(n)
  {
    if k > 0 {
      DigitsValue(n / 10, k - 1);
      var s := Digits(n, k);
      assert s[..k - 1] == Digits(n / 10, k - 1);
    }
  }

  lemma PlacesFit()
    ensures TWO_63 <= Pow10(19) && Pow10(19) <= Pow10(20)
  {
    assert Pow10(5) == 100_000;
    assert Pow10(10) == 10_000_000_000;
    assert Pow10(15) == 1_000_000_000_000_000;
    assert Pow10(19) == 10_000_000_000_000_000_000;
  }

  lemma DashAt(s: string, i: nat)
    requires i < |s| && s[i] == '-' && forall j :: 0 <= j < i ==> s[j] != '-'
    ensures Dash(s) == i
  {
  }

  /** Three parts joined by dashes come apart again when the first two have none. */
  lemma Rejoins(a: string, b: string, c: string)
    requires '-' !in a && '-' !in b
    ensures Split3(a + "-" + b + "-" + c) == Some((a, b, c))
  {
    var s := a + "-" + b + "-" + c;
    assert s == a + ("-" + b + "-" + c);
    DashAt(s, |a|);
    var rest := s[|a| + 1..];
    assert rest == b + ("-" + c);
    DashAt(rest, |b|);
    assert s[..|a|] == a && rest[..|b|] == b && rest[|b| + 1..] == c;
  }

  lemma Trimmed(n: Name)
    requires Storable(n)
    ensures TrimJson(FileName(n)) == Class(n.test) + "-" + Padded(n.at) + "-" + n.id
  {
    var base := Class(n.test) + "-" + Padded(n.at) + "-" + n.id;
    assert FileName(n) == base + SUFFIX;
    assert (base + SUFFIX)[|base|..] == SUFFIX && (base + SUFFIX)[..|base|] == base;
  }

  /**
   * Both decoders invert fileName, whatever the request id holds (dashes and a ".json" ending included), exactly when
   * the enqueue time is not before 1970.
   */
  lemma NameDecodes(n: Name)
    requires Storable(n)
    ensures RequestIDFromName(FileName(n)) == n.id && EnqueueNanosFromName(FileName(n)) == Some(n.at) <==> n.at >= 0
  {
    if n.at >= 0 { LateDecodes(n); } else { EarlyMisreads(n); }
  }

  lemma LateDecodes(n: Name)
    requires Storable(n) && n.at >= 0
    ensures RequestIDFromName(FileName(n)) == n.id && EnqueueNanosFromName(FileName(n)) == Some(n.at)
  {
    Trimmed(n);
    PlacesFit();
    DigitsValue(n.at, 20);
    Rejoins(Class(n.test), Padded(n.at), n.id);
    assert Padded(n.at)[0] != '-' && Padded(n.at)[0] != '+';
  }

  /** The minus sign of an earlier time is read as a separator. */
  lemma EarlyMisreads(n: Name)
    requires Storable(n) && n.at < 0
    ensures !(RequestIDFromName(FileName(n)) == n.id && EnqueueNanosFromName(FileName(n)) == Some(n.at))
  {
    Trimmed(n);
    PlacesFit();
    var rest := Digits(-n.at, 19) + "-" + n.id;
    assert Class(n.test) + "-" + Padded(n.at) + "-" + n.id == Class(n.test) + "-" + "" + "-" + rest;
    Rejoins(Class(n.test), "", rest);
  }

  /**
   * A file that is not named so is not taken for one that is: without two dashes there is no id and no time, and
   * without decimal digits, at most a sign before them, between the first two there is no time.
   */
  lemma ForeignNames(name: string)
    ensures var t := TrimJson(name);
            (forall i, j :: 0 <= i < j < |t| && t[i] == '-' ==> t[j] != '-') ==>
              RequestIDFromName(name) == "" && EnqueueNanosFromName(name) == None
    ensures forall a, m, c :: TrimJson(name) == a + "-" + m + "-" + c && '-' !in a && '-' !in m ==>
              && RequestIDFromName(name) == c
              && (m == "" || m == "+" || HasLetter(m) ==> EnqueueNanosFromName(name) == None)
  {
    var t := TrimJson(name);
    if Split3(t).Some? {
      var i := Dash(t);
      var j := i + 1 + Dash(t[i + 1..]);
      assert t[i + 1..][j - i - 1] == t[j] == '-';
    }
    forall a, m, c | t == a + "-" + m + "-" + c && '-' !in a && '-' !in m
      ensures RequestIDFromName(name) == c
      ensures m == "" || m == "+" || HasLetter(m) ==> EnqueueNanosFromName(name) == None {
      Rejoins(a, m, c);
      if i :| 0 <= i < |m| && !('0' <= m[i] <= '9') && !(i == 0 && m[0] == '+') { NotANumber(m, i); }
    }
  }

  /** Something in it is neither a digit nor a sign at its start. */
  predicate HasLetter(m: string) {
    exists i :: 0 <= i < |m| && !('0' <= m[i] <= '9') && !(i == 0 && m[0] == '+')
  }

  lemma NotANumber(m: string, i: nat)
    requires i < |m| && !('0' <= m[i] <= '9') && !(i == 0 && m[0] == '+') && '-' !in m
    ensures ParseInt(m) == None
  {
    if m[0] == '+' { NoDigit(m[1..], i - 1); } else { NoDigit(m, i); }
  }

  lemma {:induction false} NoDigit(s: string, i: nat)
    requires i < |s| && !('0' <= s[i] <= '9')
    ensures Value(s) == None
  {
    if i < |s| - 1 { NoDigit(s[..|s| - 1], i); }
  }

  lemma {:induction false} LexPrefix(p: string, a: string, b: string)
    ensures LexLess(p + a, p + b) <==> LexLess(a, b)
  {
    if p == "" {
      assert p + a == a && p + b == b;
    } else {
      LexPrefix(p[1..], a, b);
      assert (p + a)[1..] == p[1..] + a && (p + b)[1..] == p[1..] + b;
    }
  }

  /** What follows two different strings of one length does not matter. */
  lemma {:induction false} LexSameLength(a: string, b: string, x: string, y: string)
    requires |a| == |b| && a != b
    ensures LexLess(a + x, b + y) <==> LexLess(a, b)
  {
    assert (a + x)[0] == a[0] && (b + y)[0] == b[0];
    if a[0] == b[0] {
      assert a == [a[0]] + a[1..] && b == [b[0]] + b[1..];
      LexSameLength(a[1..], b[1..], x, y);
      assert (a + x)[1..] == a[1..] + x && (b + y)[1..] == b[1..] + y;
    }
  }

  /** Zero padding makes string order the order of the numbers. */
  lemma {:induction false} DigitsOrder(m: nat, n: nat, k: nat)
    requires m < Pow10(k) && n < Pow10(k)
    ensures LexLess(Digits(m, k), Digits(n, k)) <==> m < n
    ensures Digits(m, k) == Digits(n, k) <==> m == n
  {
    if k > 0 {
      DigitsOrder(m / 10, n / 10, k - 1);
      var a, b := Digits(m / 10, k - 1), Digits(n / 10, k - 1);
      var c, d := [('0' as int + m % 10) as char], [('0' as int + n % 10) as char];
      if a == b {
        LexPrefix(a, c, d);
      } else {
        LexSameLength(a, b, c, d);
        assert (a + c)[..k - 1] == a && (b + d)[..k - 1] == b;
      }
    }
  }

  /** The name after its class. */
  function Tail(n: Name): string
    requires Storable(n)
  {
    "-" + Padded(n.at) + "-" + n.id + SUFFIX
  }

  lemma TimeOrder(a: Name, b: Name)
    requires Storable(a) && Storable(b) && a.at >= 0 && b.at >= 0 && a.at != b.at
    ensures LexLess(Tail(a), Tail(b)) <==> a.at < b.at
  {
    hide LexLess, Digits;
    PlacesFit();
    DigitsOrder(a.at, b.at, 20);
    var da, db := "-" + Padded(a.at), "-" + Padded(b.at);
    var ta, tb := "-" + a.id + SUFFIX, "-" + b.id + SUFFIX;
    LexPrefix("-", Padded(a.at), Padded(b.at));
    assert da[1..] == Padded(a.at) && db[1..] == Padded(b.at);
    LexSameLength(da, db, ta, tb);
    assert Tail(a) == da + ta && Tail(b) == db + tb;
  }

  lemma IDOrder(a: Name, b: Name)
    requires Storable(a) && Storable(b) && a.at == b.at
    ensures LexLess(Tail(a), Tail(b)) <==> LexLess(a.id + SUFFIX, b.id + SUFFIX)
  {
    hide LexLess, Digits;
    var p := "-" + Padded(a.at) + "-";
    LexPrefix(p, a.id + SUFFIX, b.id + SUFFIX);
    assert Tail(a) == p + (a.id + SUFFIX) && Tail(b) == p + (b.id + SUFFIX);
  }

  /**
   * Spool names encode delivery order: for times from 1970 on, the byte order of the file names is test sends first,
   * then the enqueue time, then the request id followed by its suffix.
   */
  lemma NameOrder(a: Name, b: Name)
    requires Storable(a) && Storable(b) && a.at >= 0 && b.at >= 0
    ensures LexLess(FileName(a), FileName(b)) <==> Before(a, b)
  {
    assert FileName(a) == Class(a.test) + Tail(a) && FileName(b) == Class(b.test) + Tail(b);
    if a.test != b.test {
      LexSameLength(Class(a.test), Class(b.test), Tail(a), Tail(b));
      assert LexLess("0", "1") && !LexLess("1", "0");
    } else {
      LexPrefix(Class(a.test), Tail(a), Tail(b));
      if a.at != b.at { TimeOrder(a, b); } else { IDOrder(a, b); }
    }
  }

  /** The suffix does not come between id a and a longer id that begins with it. */
  predicate Apart(a: string, b: string) {
    a < b ==> LexLess(SUFFIX, b[|a|..] + SUFFIX)
  }

  lemma SuffixOrder(a: string, b: string)
    ensures (LexLess(a + SUFFIX, b + SUFFIX) <==> LexLess(a, b)) <==> Apart(a, b) && Apart(b, a)
  {
    if a == b {
      LexIrreflexive(a);
      LexIrreflexive(a + SUFFIX);
    } else if a < b {
      Longer(a, b);
    } else if b < a {
      Longer(b, a);
      LexTotal(a + SUFFIX, b + SUFFIX);
      NotBoth(a, b);
      NotBoth(a + SUFFIX, b + SUFFIX);
      assert a[..|a|] == (a + SUFFIX)[..|a|] && |a + SUFFIX| != |b + SUFFIX|;
    } else {
      LexDiffer(a, b, SUFFIX);
    }
  }

  /** An id comes before a longer one that begins with it; its file name does so if the suffix sorts before the rest. */
  lemma Longer(a: string, b: string)
    requires a < b
    ensures LexLess(a, b) && (LexLess(a + SUFFIX, b + SUFFIX) <==> LexLess(SUFFIX, b[|a|..] + SUFFIX))
  {
    var r := b[|a|..];
    assert b == a + r && a == a + "" && b + SUFFIX == a + (r + SUFFIX);
    LexPrefix(a, "", r);
    LexPrefix(a, SUFFIX, r + SUFFIX);
  }

  lemma NotBoth(a: string, b: string)
    ensures !(LexLess(a, b) && LexLess(b, a))
  {
    if LexLess(a, b) && LexLess(b, a) {
      LexTransitive(a, b, a);
      LexIrreflexive(a);
    }
  }

  /** What follows two strings does not matter if neither begins the other. */
  lemma {:induction false} LexDiffer(a: string, b: string, x: string)
    requires !(a <= b) && !(b <= a)
    ensures LexLess(a + x, b + x) <==> LexLess(a, b)
  {
    assert (a + x)[0] == a[0] && (b + x)[0] == b[0];
    if a[0] == b[0] {
      assert a == [a[0]] + a[1..] && b == [b[0]] + b[1..];
      LexDiffer(a[1..], b[1..], x);
      assert (a + x)[1..] == a[1..] + x && (b + x)[1..] == b[1..] + x;
    }
  }

  /**
   * Among names of one class and time the order is that of the request ids exactly when the suffix does not come
   * between an id and a longer one that begins with it.
   */
  lemma NameOrderByID(a: Name, b: Name)
    requires Storable(a) && Storable(b) && a.at >= 0 && a.test == b.test && a.at == b.at
    ensures (LexLess(FileName(a), FileName(b)) <==> LexLess(a.id, b.id)) <==> Apart(a.id, b.id) && Apart(b.id, a.id)
  {
    NameOrder(a, b);
    SuffixOrder(a.id, b.id);
  }

  /** A request id as NewRequestID makes it: r_ and 32 hexadecimal digits. */
  predicate IsRequestID(id: string) {
    |id| == 34 && "r_" <= id && forall i :: 2 <= i < |id| ==> '0' <= id[i] <= '9' || 'a' <= id[i] <= 'f'
  }

  /** The hub's own ids never begin one another, so its file names are in delivery order down to the request id. */
  lemma HubOrder(a: Name, b: Name)
    requires Storable(a) && Storable(b) && a.at >= 0 && b.at >= 0 && IsRequestID(a.id) && IsRequestID(b.id)
    ensures LexLess(FileName(a), FileName(b)) <==>
              if a.test != b.test then a.test else if a.at != b.at then a.at < b.at else LexLess(a.id, b.id)
  {
    NameOrder(a, b);
    if a.test == b.test && a.at == b.at { NameOrderByID(a, b); }
  }

  /** A dash sorts before the dot of the suffix: two ids, not the hub's, whose file names sort the other way round. */
  lemma PrefixIDOrder()
    ensures LexLess("a", "a-") && LexLess(FileName(Name(false, 0, "a-")), FileName(Name(false, 0, "a")))
  {
    NameOrder(Name(false, 0, "a-"), Name(false, 0, "a"));
    assert "a-" + SUFFIX == "a-.json" && "a" + SUFFIX == "a.json";
    LexPrefix("a", "-.json", ".json");
    assert "a" + "-.json" == "a-.json" && "a" + ".json" == "a.json";
    LexPrefix("a", "", "-");
  }
}
