/**
 Single-line TOML strings: how far the scanner skips them, how tomlString writes one, and what section "String" of
 TOML v1.0.0 says a basic string means.
 */
module Quotes {
  import opened Wrappers
  import opened Text

  // ----- skipping

  /** skipBasic, for the text after the opening quote: how many characters it consumes. */
  function BasicLen(s: string): (n: nat)
    ensures n <= |s|
  {
    if s == "" then 0
    else if s[0] == '\\' then if |s| == 1 then 1 else 2 + BasicLen(s[2..])
    else if s[0] == '"' then 1
    else if s[0] == '\n' then 0
    else 1 + BasicLen(s[1..])
  }

  /** skipLiteral, for the text after the opening quote. */
  function LiteralLen(s: string): (n: nat)
    ensures n <= |s|
  {
    if s == "" then 0
    else if s[0] == '\'' then 1
    else if s[0] == '\n' then 0
    else 1 + LiteralLen(s[1..])
  }

  /** The loop of skipBasic, over an index that an escape can carry past the end. */
  method SkipBasic(b: string, i: nat) returns (end: nat)
    requires i < |b|
    ensures end == i + 1 + BasicLen(b[i + 1..])
  {
    var j := i + 1;
    while j < |b|
      invariant i < j <= |b| + 1
      invariant i + 1 + BasicLen(b[i + 1..]) == if j <= |b| then j + BasicLen(b[j..]) else |b|
    {
      assert b[j..][1..] == b[j + 1..];
      assert |b| - j > 1 ==> b[j..][2..] == b[j + 2..];
      if b[j] == '\\' {
        j := j + 1;
      } else if b[j] == '"' {
        return j + 1;
      } else if b[j] == '\n' {
        return j;
      }
      j := j + 1;
    }
    end := |b|;
  }

  method SkipLiteral(b: string, i: nat) returns (end: nat)
    requires i < |b|
    ensures end == i + 1 + LiteralLen(b[i + 1..])
  {
    var j := i + 1;
    while j < |b|
      invariant i < j <= |b|
      invariant i + 1 + LiteralLen(b[i + 1..]) == j + LiteralLen(b[j..])
    {
      assert b[j..][1..] == b[j + 1..];
      if b[j] == '\'' || b[j] == '\n' {
        if b[j] == '\n' {
          return j;
        }
        return j + 1;
      }
      j := j + 1;
    }
    end := |b|;
  }

  // ----- writing

  const HEX := "0123456789ABCDEF"
  const DEL: char := '\U{7F}'

  /** The text tomlString writes for one character. */
  function Escape(c: char): (e: string)
    ensures e != ""
  {
    if c == '"' then "\\\""
    else if c == '\\' then "\\\\"
    else if c == '\n' then "\\n"
    else if c == '\r' then "\\r"
    else if c == '\t' then "\\t"
    else if c < ' ' then "\\u00" + [HEX[c as int / 16], HEX[c as int % 16]]
    else [c]
  }

  function EscapeAll(s: string): string {
    if s == "" then "" else Escape(s[0]) + EscapeAll(s[1..])
  }

  function Quote(s: string): string {
    "\"" + EscapeAll(s) + "\""
  }

  lemma {:induction false} EscapeAllAppend(a: string, b: string)
    ensures EscapeAll(a + b) == EscapeAll(a) + EscapeAll(b)
  {
    hide Escape;
    if a == "" {
      assert a + b == b;
    } else {
      EscapeAllAppend(a[1..], b);
      assert (a + b)[1..] == a[1..] + b && (a + b)[0] == a[0];
      SeqAssoc(Escape(a[0]), EscapeAll(a[1..]), EscapeAll(b));
    }
  }

  lemma EscapeAllNext(s: string, i: nat)
    requires i < |s|
    ensures EscapeAll(s[..i + 1]) == EscapeAll(s[..i]) + Escape(s[i])
  {
    assert s[..i + 1] == s[..i] + [s[i]];
    EscapeAllAppend(s[..i], [s[i]]);
    assert EscapeAll([s[i]]) == Escape(s[i]) + EscapeAll([]);
  }

  method TomlString(s: string) returns (b: string)
    ensures b == Quote(s)
  {
    b := "\"";
    for i := 0 to |s|
      invariant b == "\"" + EscapeAll(s[..i])
    {
      var e: string;
      if s[i] == '"' {
        e := "\\\"";
      } else if s[i] == '\\' {
        e := "\\\\";
      } else if s[i] == '\n' {
        e := "\\n";
      } else if s[i] == '\r' {
        e := "\\r";
      } else if s[i] == '\t' {
        e := "\\t";
      } else if s[i] < ' ' {
        e := "\\u00" + [HEX[s[i] as int / 16], HEX[s[i] as int % 16]];
      } else {
        e := [s[i]];
      }
      EscapeAllNext(s, i);
      SeqAssoc("\"", EscapeAll(s[..i]), e);
      b := b + e;
    }
    assert s[..|s|] == s;
    b := b + "\"";
  }

  // ----- reading, as TOML defines it

  function HexValue(c: char): Option<nat> {
    if '0' <= c <= '9' then Some((c as int) - ('0' as int))
    else if 'A' <= c <= 'F' then Some((c as int) - ('A' as int) + 10)
    else if 'a' <= c <= 'f' then Some((c as int) - ('a' as int) + 10)
    else None
  }

  function HexNumber(s: string): Option<nat> {
    if s == "" then Some(0)
    else
      match (HexNumber(s[..|s| - 1]), HexValue(s[|s| - 1]))
      case (Some(hi), Some(lo)) => Some(16 * hi + lo)
      case _ => None
  }

  /** The character an escape code names, when it is a Unicode scalar value. */
  function Scalar(n: nat): Option<char> {
    if n < 0xD800 || 0xE000 <= n < 0x11_0000 then Some(n as char) else None
  }

  predicate IsControl(c: char) {
    (c < ' ' && c != '\t') || c == DEL
  }

  /** One character of a basic string and the text it was spelled with; the closing quote is not one. */
  function DecodeOne(s: string): (r: Option<(char, nat)>)
    requires s != ""
    ensures r.Some? ==> 0 < r.value.1 <= |s|
  {
    if s[0] == '"' || IsControl(s[0]) then None
    else if s[0] != '\\' then Some((s[0], 1))
    else if |s| == 1 then None
    else if s[1] == 'b' then Some(('\U{8}', 2))
    else if s[1] == 't' then Some(('\t', 2))
    else if s[1] == 'n' then Some(('\n', 2))
    else if s[1] == 'f' then Some(('\U{C}', 2))
    else if s[1] == 'r' then Some(('\r', 2))
    else if s[1] == '"' then Some(('"', 2))
    else if s[1] == '\\' then Some(('\\', 2))
    else if s[1] == 'u' && |s| >= 6 then DecodeScalar(s[2..6], 6)
    else if s[1] == 'U' && |s| >= 10 then DecodeScalar(s[2..10], 10)
    else None
  }

  function DecodeScalar(digits: string, n: nat): (r: Option<(char, nat)>)
    ensures r.Some? ==> r.value.1 == n
  {
    match HexNumber(digits)
    case None => None
    case Some(v) =>
      match Scalar(v)
      case None => None
      case Some(c) => Some((c, n))
  }

  /** What a basic string means, from after its opening quote to a closing quote that must end the text. */
  function DecodeBody(s: string): Option<string> {
    if s == "" then None
    else if s[0] == '"' then if |s| == 1 then Some("") else None
    else
      match DecodeOne(s)
      case None => None
      case Some((c, n)) =>
        match DecodeBody(s[n..])
        case None => None
        case Some(rest) => Some([c] + rest)
  }

  function DecodeBasic(s: string): Option<string> {
    if s != "" && s[0] == '"' then DecodeBody(s[1..]) else None
  }

  // ----- tomlString against both

  lemma EscapeDecodes(c: char, rest: string)
    ensures c != DEL ==> DecodeOne(Escape(c) + rest) == Some((c, |Escape(c)|))
    ensures c == DEL ==> DecodeOne(Escape(c) + rest) == None
    ensures (Escape(c) + rest)[0] != '"'
    ensures (Escape(c) + rest)[|Escape(c)|..] == rest
  {
    if c < ' ' && c != '\n' && c != '\r' && c != '\t' {
      var hi, lo := c as int / 16, c as int % 16;
      var d := ['0', '0', HEX[hi], HEX[lo]];
      assert (Escape(c) + rest)[2..6] == d;
      HexPair(hi, lo);
    }
  }

  lemma HexPair(hi: nat, lo: nat)
    requires hi < 2 && lo < 16
    ensures HexNumber(['0', '0', HEX[hi], HEX[lo]]) == Some(16 * hi + lo)
  {
    var d := ['0', '0', HEX[hi], HEX[lo]];
    assert d[..3] == ['0', '0', HEX[hi]];
    assert ['0', '0', HEX[hi]][..2] == ['0', '0'];
    assert ['0', '0'][..1] == ['0'];
    assert ['0'][..0] == "";
    assert HexValue(HEX[lo]) == Some(lo);
    assert HexNumber(['0']) == Some(0);
    assert HexNumber(['0', '0']) == Some(0);
    assert HexNumber(['0', '0', HEX[hi]]) == Some(hi);
  }

  lemma {:induction false} EscapeAllDecodes(s: string)
    ensures DecodeBody(EscapeAll(s) + "\"") == if DEL in s then None else Some(s)
  {
    if s != "" {
      EscapeAllDecodes(s[1..]);
      var rest := EscapeAll(s[1..]) + "\"";
      assert EscapeAll(s) + "\"" == Escape(s[0]) + rest;
      EscapeDecodes(s[0], rest);
      assert DEL in s <==> s[0] == DEL || DEL in s[1..];
      assert s == [s[0]] + s[1..];
    }
  }

  /**
   What tomlString writes is a valid basic string exactly when the value holds no U+007F, the one control character it
   does not escape; and then it means the value it was given.
   */
  lemma QuoteDecodes(s: string)
    ensures DecodeBasic(Quote(s)) == if DEL in s then None else Some(s)
    ensures DecodeBasic(Quote(s)) == Some(s) <==> DEL !in s
  {
    assert Quote(s)[1..] == EscapeAll(s) + "\"";
    EscapeAllDecodes(s);
  }

  /** A value that tomlString turns into text no TOML 1.0 parser accepts. */
  lemma QuoteOfDelete()
    ensures DecodeBasic(Quote([DEL])) == None
  {
    QuoteDecodes([DEL]);
  }

  /** skipBasic, from the opening quote, stops right behind the closing quote of a written string. */
  lemma {:induction false} EscapeAllScans(s: string, rest: string)
    ensures BasicLen(EscapeAll(s) + "\"" + rest) == |EscapeAll(s)| + 1
    ensures '\n' !in EscapeAll(s)
  {
    hide Escape;
    if s != "" {
      EscapeAllScans(s[1..], rest);
      var tail := EscapeAll(s[1..]) + "\"" + rest;
      assert EscapeAll(s) + "\"" + rest == Escape(s[0]) + tail;
      EscapeScans(s[0], tail);
    }
  }

  lemma EscapeScans(c: char, tail: string)
    ensures BasicLen(Escape(c) + tail) == |Escape(c)| + BasicLen(tail)
    ensures '\n' !in Escape(c)
  {
    var e := Escape(c);
    if |e| == 1 {
      assert (e + tail)[1..] == tail;
    } else {
      assert (e + tail)[2..] == e[2..] + tail;
      if |e| == 2 {
        assert e[2..] + tail == tail;
      } else {
        HexScans(c, tail);
      }
    }
  }

  lemma HexScans(c: char, tail: string)
    requires |Escape(c)| > 2
    ensures var e := Escape(c);
            e[0] == '\\' && '\n' !in e && BasicLen(e[2..] + tail) == 4 + BasicLen(tail)
  {
    assert forall i :: 0 <= i < 16 ==> HEX[i] !in {'"', '\\', '\n'};
    var e := Escape(c);
    hide Escape;
    InertScans(e[2..], tail);
  }

  lemma {:induction false} InertScans(s: string, tail: string)
    requires forall i :: 0 <= i < |s| ==> s[i] !in {'"', '\\', '\n'}
    ensures BasicLen(s + tail) == |s| + BasicLen(tail)
  {
    if s == "" {
      assert s + tail == tail;
    } else {
      assert (s + tail)[0] == s[0] && (s + tail)[1..] == s[1..] + tail;
      InertScans(s[1..], tail);
    }
  }

  /** A written string is one line of printable text, U+007F aside: quotes, backslashes and controls come escaped. */
  lemma {:induction false} EscapedIsPrintable(s: string)
    ensures forall i :: 0 <= i < |EscapeAll(s)| ==> EscapeAll(s)[i] >= ' '
  {
    if s != "" {
      EscapedIsPrintable(s[1..]);
      EscapeIsPrintable(s[0]);
      hide Escape;
      assert forall i :: 0 <= i < |EscapeAll(s)| ==>
        EscapeAll(s)[i] == if i < |Escape(s[0])| then Escape(s[0])[i] else EscapeAll(s[1..])[i - |Escape(s[0])|];
    }
  }

  lemma EscapeIsPrintable(c: char)
    ensures forall i :: 0 <= i < |Escape(c)| ==> Escape(c)[i] >= ' '
  {
    assert forall i :: 0 <= i < 16 ==> HEX[i] >= ' ';
  }
}
