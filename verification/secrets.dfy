/** What the settings editor hides and what it puts back, said of names and values alone. */
module Secrets {
  import opened Wrappers
  import opened Text
  import opened Headers
  import opened Lexer
  import opened Tables
  import opened Assigns
  import opened Masking
  import opened MaskRound

  /** What is shown in place of a secret: eight bullets in quotes. */
  const SHOWN: string := "\"••••••••\""

  const WORDS: set<string> := {"password", "token", "secret", "credential", "api_key", "apikey", "passphrase"}

  /** c is the small letter w, or the capital of it. */
  predicate Reads(c: char, w: char) {
    c == w || ('A' <= c <= 'Z' && c as int + 32 == w as int)
  }

  predicate WordAt(name: string, w: string, k: nat) {
    k + |w| <= |name| && forall j :: 0 <= j < |w| ==> Reads(name[k + j], w[j])
  }

  /** The name contains one of the words, in letters of either case. */
  ghost predicate NamesSecret(name: string) {
    exists w, k :: w in WORDS && WordAt(name, w, k)
  }

  predicate StartsString(value: string) {
    value != "" && (value[0] == '"' || value[0] == '\'')
  }

  predicate Small(w: string) {
    forall j :: 0 <= j < |w| ==> !('A' <= w[j] <= 'Z')
  }

  lemma ContainsWord(name: string, w: string)
    requires Small(w)
    ensures Contains(Lower(name), w) <==> exists k: nat :: WordAt(name, w, k)
  {
    var n := Lower(name);
    if Contains(n, w) {
      var k :| 0 <= k <= |n| && w <= n[k..];
      forall j | 0 <= j < |w| ensures Reads(name[k + j], w[j]) { assert n[k..][j] == w[j]; }
      assert WordAt(name, w, k);
    }
    if k: nat :| WordAt(name, w, k) {
      assert n[k..][..|w|] == w;
    }
  }

  lemma SecretNames(name: string)
    ensures Secretish(name) <==> NamesSecret(name)
  {
    hide Contains, WordAt;
    forall w | w in WORDS ensures Small(w) {}
    forall w | w in WORDS ensures Contains(Lower(name), w) <==> exists k: nat :: WordAt(name, w, k) {
      ContainsWord(name, w);
    }
  }

  lemma ShownIsMasked()
    ensures SHOWN == MASKED_SECRET
  {
  }

  /**
   * No secret is shown: after masking, every string assigned to a name that contains one of the words reads as bullets,
   * whatever kind of string it is, and every other setting is as it was, in order.
   */
  lemma MaskHides(b: string)
    requires Closed(b) && PlainNames(Settings(Scan(b)))
    ensures var ps, qs := Settings(Scan(b)), Settings(Scan(Masked(b)));
            && Closed(Masked(b)) && |qs| == |ps|
            && forall i :: 0 <= i < |ps| ==>
                 qs[i] == (ps[i].0, if NamesSecret(ps[i].0) && StartsString(ps[i].1) then SHOWN else ps[i].1)
  {
    hide Classify, Lines, Settings, RewriteText, Secretish, NamesSecret, Rewritable, WritesBack;
    var ps := Settings(Scan(b));
    AllRewritable(b);
    MaskWritesBack(ps);
    RewriteTwice(b, MaskRule, MaskRule);
    ShownIsMasked();
    forall i | 0 <= i < |ps|
      ensures After1(MaskRule, ps[i]) ==
                (ps[i].0, if NamesSecret(ps[i].0) && StartsString(ps[i].1) then SHOWN else ps[i].1) {
      SecretNames(ps[i].0);
    }
  }

  /** The value that the last assignment of this name gives it. */
  predicate LastValue(ps: seq<(string, string)>, name: string, value: string) {
    exists j :: 0 <= j < |ps| && ps[j] == (name, value) && forall k :: j < k < |ps| ==> ps[k].0 != name
  }

  predicate Names(ps: seq<(string, string)>, name: string) {
    exists j :: 0 <= j < |ps| && ps[j].0 == name
  }

  lemma {:induction false} OriginalsAreLast(ps: seq<(string, string)>, name: string)
    ensures name in Originals(ps) <==> Names(ps, name)
    ensures name in Originals(ps) ==> LastValue(ps, name, Originals(ps)[name])
  {
    hide LastValue, Names;
    if ps == [] {
      NobodyNamed(name);
    } else {
      var k := |ps| - 1;
      OriginalsAreLast(ps[..k], name);
      LastAdds(ps, k, name);
    }
  }

  lemma NobodyNamed(name: string)
    ensures !Names([], name)
  {
  }

  lemma LastAdds(ps: seq<(string, string)>, k: nat, name: string)
    requires |ps| == k + 1
    ensures Names(ps, name) <==> ps[k].0 == name || Names(ps[..k], name)
    ensures ps[k].0 == name ==> LastValue(ps, name, ps[k].1)
    ensures ps[k].0 != name ==> forall v :: LastValue(ps[..k], name, v) ==> LastValue(ps, name, v)
  {
    assert forall j :: 0 <= j < k ==> ps[..k][j] == ps[j];
    if ps[k].0 == name {
      assert ps[k] == (name, ps[k].1);
    } else {
      forall v | LastValue(ps[..k], name, v) ensures LastValue(ps, name, v) {
        var j :| 0 <= j < k && ps[..k][j] == (name, v) && forall i :: j < i < k ==> ps[..k][i].0 != name;
        assert ps[j] == (name, v);
      }
    }
    if Names(ps[..k], name) {
      var j :| 0 <= j < k && ps[..k][j].0 == name;
      assert ps[j].0 == name;
    }
  }

  /**
   * Unmasking puts back what is on disk: a submission is refused exactly if it leaves bullets under a name that has no
   * value on disk, and otherwise every setting left as bullets gets the value its name has on disk, the last one if
   * there are several, and every other setting is as submitted, in order.
   */
  lemma UnmaskRestores(submitted: string, original: string)
    requires Closed(submitted) && PlainNames(Settings(Scan(submitted)))
    requires Closed(original) && PlainNames(Settings(Scan(original)))
    ensures var ps, os, r := Settings(Scan(submitted)), Settings(Scan(original)), Unmasked(submitted, original);
            && (r.None? <==>
                  exists i :: 0 <= i < |ps| && ps[i].1 == SHOWN && !Names(os, ps[i].0))
            && (r.Some? ==>
                  var qs := Settings(Scan(r.value));
                  && Closed(r.value) && |qs| == |ps|
                  && forall i :: 0 <= i < |ps| ==>
                       && qs[i].0 == ps[i].0
                       && if ps[i].1 == SHOWN then LastValue(os, ps[i].0, qs[i].1) else qs[i].1 == ps[i].1)
  {
    hide Classify, Lines, Settings, RewriteText, Rewritable, WritesBack, Originals, LastValue, Orphaned, Names;
    var ps, os := Settings(Scan(submitted)), Settings(Scan(original));
    var o := Originals(os);
    ShownIsMasked();
    forall name ensures (name in o <==> Names(os, name)) && (name in o ==> LastValue(os, name, o[name])) {
      OriginalsAreLast(os, name);
    }
    OrphanedMeans(ps, o);
    if !Orphaned(ps, o) {
      AllRewritable(original);
      UnmaskWritesBack(ps, os);
      RewriteTwice(submitted, UnmaskRule(o), UnmaskRule(o));
    }
  }

  lemma OrphanedMeans(ps: seq<(string, string)>, o: map<string, string>)
    ensures Orphaned(ps, o) <==> exists i :: 0 <= i < |ps| && ps[i].1 == MASKED_SECRET && ps[i].0 !in o
  {
  }

  lemma UnmaskWritesBack(ps: seq<(string, string)>, os: seq<(string, string)>)
    requires Rewritable(os)
    ensures WritesBack(ps, UnmaskRule(Originals(os)))
  {
    hide Writable, PlainName, Originals;
    var o := Originals(os);
    forall i | 0 <= i < |ps| && UnmaskRule(o)(ps[i].0, ps[i].1).Some? ensures Writable(ps[i].0, o[ps[i].0]) {
      OriginalsAreLast(os, ps[i].0);
      var j :| 0 <= j < |os| && os[j] == (ps[i].0, o[ps[i].0]);
    }
  }

  // ----- the text around the secrets

  /** Lines i up to m are one assignment, or one other line: m is the next line that starts something. */
  predicate IsWhole(ls: seq<Line>, i: nat, m: nat) {
    i < m <= |ls| && (forall j :: i < j < m ==> !ls[j].structural) && (m < |ls| ==> ls[m].structural)
  }

  lemma WholeEnds(ls: seq<Line>, i: nat, m: nat)
    requires IsWhole(ls, i, m)
    ensures m == LogicalEnd(ls, i)
  {
    hide Classify;
    EndFacts(ls, i);
  }

  /**
   * Masking changes no other text: line by line, an assignment of a secret string comes out as its name, an equals sign
   * and the bullets, and everything else, comments and blank lines included, byte for byte.
   */
  lemma MaskedText(ls: seq<Line>, i: nat, m: nat)
    requires IsWhole(ls, i, m)
    ensures var text, rest := Concat(ls[i..m]), RewriteText(ls[m..], MaskRule);
            RewriteText(ls[i..], MaskRule) ==
            match KeyAt(ls[i])
            case None => text + rest
            case Some(name) =>
              if NamesSecret(name) && StartsString(ValueOf(text)) && ValueOf(text) != SHOWN
              then name + " = " + SHOWN + "\n" + rest else text + rest
    ensures RewriteText([], MaskRule) == ""
  {
    hide Classify, KeyAt, ValueOf, Secretish, NamesSecret, Concat;
    WholeEnds(ls, i, m);
    TextStep(ls, i, m, MaskRule);
    ShownIsMasked();
    if KeyAt(ls[i]).Some? { SecretNames(KeyAt(ls[i]).value); }
  }

  /** Nor does unmasking: what was left as bullets comes out as its name, an equals sign and the value on disk. */
  lemma UnmaskedText(ls: seq<Line>, os: seq<(string, string)>, i: nat, m: nat)
    requires IsWhole(ls, i, m)
    ensures var o := Originals(os);
            var text, rest := Concat(ls[i..m]), RewriteText(ls[m..], UnmaskRule(o));
            RewriteText(ls[i..], UnmaskRule(o)) ==
            match KeyAt(ls[i])
            case None => text + rest
            case Some(name) =>
              if ValueOf(text) == SHOWN && name in o then name + " = " + o[name] + "\n" + rest else text + rest
    ensures RewriteText([], UnmaskRule(Originals(os))) == ""
  {
    hide Classify, KeyAt, ValueOf, Concat, Originals;
    WholeEnds(ls, i, m);
    TextStep(ls, i, m, UnmaskRule(Originals(os)));
    ShownIsMasked();
  }
}
