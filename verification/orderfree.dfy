/**
 * The rows of the delivery log do not depend on the order of its lines, as long as a delivery has at most one request
 * and one terminal line that agree on the caller.
 */
module OrderFree {
  import opened Wrappers
  import opened Names
  import opened Deliveries

  /** Each delivery is asked for at most once and settled at most once, by lines that name the same caller. */
  ghost predicate Sparse(ms: seq<Mention>) {
    && (forall a :: a in ms ==> multiset(ms)[a] == 1)
    && (forall a, b :: a in ms && b in ms && a != b && a.key == b.key ==> a.Asked? != b.Asked? && a.caller == b.caller)
  }

  lemma SparsePart(ms: seq<Mention>)
    requires Sparse(ms) && ms != []
    ensures Sparse(ms[..|ms| - 1]) && ms[|ms| - 1] !in ms[..|ms| - 1]
  {
    var before, m := ms[..|ms| - 1], ms[|ms| - 1];
    assert ms == before + [m];
    assert multiset(ms) == multiset(before) + multiset{m};
    forall a | a in before ensures multiset(before)[a] == 1 { assert a in ms; }
    assert m in ms;
    assert multiset(ms)[m] == multiset(before)[m] + 1;
    forall a, b | a in before && b in before && a != b && a.key == b.key
      ensures a.Asked? != b.Asked? && a.caller == b.caller {
      assert a in ms && b in ms;
    }
  }

  /** In a sparse log a message settled late is one that was also asked for. */
  lemma {:induction false} SparseResettled(ms: seq<Mention>, k: Key)
    requires Sparse(ms)
    ensures Resettled(ms, k) == if FirstAsked(ms, k).Some? then FirstSettled(ms, k) else None
  {
    if ms != [] {
      var before, m := ms[..|ms| - 1], ms[|ms| - 1];
      assert ms == before + [m];
      SparsePart(ms);
      SparseResettled(before, k);
      if m.key == k {
        forall x | x in before && x.key == k ensures x.Asked? != m.Asked? { assert x in ms && m in ms; }
        if m.Settled? && Mentioned(before, k) {
          var x :| x in before && x.key == k;
          assert FirstAsked(before, k).Some?;
        }
      }
    }
  }

  /** The same lines in another order say the same about each delivery. */
  lemma SameRow(ms: seq<Mention>, ns: seq<Mention>, k: Key)
    requires Sparse(ms) && multiset(ms) == multiset(ns) && Mentioned(ms, k)
    ensures Sparse(ns) && Mentioned(ns, k) && Row(ms, k) == Row(ns, k)
  {
    forall a ensures a in ms <==> a in ns { assert a in multiset(ms) <==> a in multiset(ns); }
    assert Sparse(ns);
    SparseResettled(ms, k);
    SparseResettled(ns, k);
    var x :| x in ms && x.key == k;
    assert x in ns;
    Picks(ms, ns, k);
  }

  /** There is only one of each to pick. */
  lemma Picks(ms: seq<Mention>, ns: seq<Mention>, k: Key)
    requires Sparse(ms) && Sparse(ns) && Mentioned(ms, k) && Mentioned(ns, k)
    requires forall a :: a in ms <==> a in ns
    ensures FirstAsked(ms, k) == FirstAsked(ns, k) && FirstSettled(ms, k) == FirstSettled(ns, k)
    ensures LastSettled(ms, k) == LastSettled(ns, k) && Caller(ms, k) == Caller(ns, k)
  {
    hide FirstAsked, FirstSettled, LastSettled, FirstMention;
  }

  /** A permutation of the keys is a permutation of their rows. */
  lemma {:induction false} MappedAlike(ks: seq<Key>, ls: seq<Key>, f: Key -> Delivery)
    requires multiset(ks) == multiset(ls)
    ensures multiset(Mapped(ks, f)) == multiset(Mapped(ls, f))
  {
    if ks == [] {
      BothEmpty(ks, ls);
    } else {
      var n := |ks| - 1;
      var p := FoundIn(ks, ls);
      MappedAlike(ks[..n], ls[..p] + ls[p + 1..], f);
      MappedSplit(ks[..n], [], ks[n], f);
      MappedSplit(ls[..p], ls[p + 1..], ls[p], f);
      assert ks[..n] + [ks[n]] + [] == ks && ks[..n] + [] == ks[..n];
      assert ls == ls[..p] + [ls[p]] + ls[p + 1..];
    }
  }

  lemma BothEmpty<T>(a: seq<T>, b: seq<T>)
    requires a == [] && multiset(a) == multiset(b)
    ensures b == []
  {
    assert |multiset(a)| == |a| && |multiset(b)| == |b|;
  }

  /** Where the last element of a is in its permutation b; without it they are permutations still. */
  lemma FoundIn<T>(a: seq<T>, b: seq<T>) returns (p: nat)
    requires a != [] && multiset(a) == multiset(b)
    ensures p < |b| && b[p] == a[|a| - 1]
    ensures multiset(a[..|a| - 1]) == multiset(b[..p] + b[p + 1..])
  {
    var n := |a| - 1;
    assert a == a[..n] + [a[n]];
    assert a[n] in multiset(b);
    p :| 0 <= p < |b| && b[p] == a[n];
    assert b == b[..p] + ([b[p]] + b[p + 1..]);
    assert multiset(a) == multiset(a[..n]) + multiset{a[n]};
    assert multiset(b) == multiset(b[..p]) + (multiset{b[p]} + multiset(b[p + 1..]));
    assert multiset(a[..n]) == multiset(a) - multiset{a[n]};
    assert multiset(b[..p] + b[p + 1..]) == multiset(b[..p]) + multiset(b[p + 1..]) == multiset(b) - multiset{b[p]};
  }

  function Mapped(ks: seq<Key>, f: Key -> Delivery): seq<Delivery> {
    seq(|ks|, i requires 0 <= i < |ks| => f(ks[i]))
  }

  lemma MappedSplit(a: seq<Key>, b: seq<Key>, k: Key, f: Key -> Delivery)
    ensures multiset(Mapped(a + [k] + b, f)) == multiset(Mapped(a + b, f)) + multiset{f(k)}
  {
    assert Mapped(a + [k] + b, f) == Mapped(a, f) + [f(k)] + Mapped(b, f);
    assert Mapped(a + b, f) == Mapped(a, f) + Mapped(b, f);
  }

  lemma {:induction false} DistinctMultiset(a: seq<Key>, b: seq<Key>)
    requires forall k :: k in a <==> k in b
    requires forall i, j :: 0 <= i < j < |a| ==> a[i] != a[j]
    requires forall i, j :: 0 <= i < j < |b| ==> b[i] != b[j]
    ensures multiset(a) == multiset(b)
  {
    forall k ensures multiset(a)[k] == multiset(b)[k] {
      OnceEach(a, k);
      OnceEach(b, k);
    }
  }

  lemma {:induction false} OnceEach(a: seq<Key>, k: Key)
    requires forall i, j :: 0 <= i < j < |a| ==> a[i] != a[j]
    ensures multiset(a)[k] == if k in a then 1 else 0
  {
    if a != [] {
      var n := |a| - 1;
      OnceEach(a[..n], k);
      assert a == a[..n] + [a[n]];
    }
  }

  /** The rows of what is said, as a multiset, depend only on what is said, as a multiset. */
  lemma SameRows(ms: seq<Mention>, ns: seq<Mention>)
    requires Sparse(ms) && multiset(ms) == multiset(ns)
    ensures multiset(Rows(ms)) == multiset(Rows(ns))
  {
    hide Row, Sparse;
    var none := Delivery(0, 0, Key("", ""), "", "", "", "");
    var f := k => if Mentioned(ms, k) then Row(ms, k) else none;
    forall k ensures Mentioned(ms, k) ==> Mentioned(ns, k) && Row(ms, k) == Row(ns, k) {
      if Mentioned(ms, k) { SameRow(ms, ns, k); }
    }
    forall k ensures Mentioned(ns, k) ==> Mentioned(ms, k) {
      if Mentioned(ns, k) {
        var x :| x in ns && x.key == k;
        assert x in multiset(ms);
      }
    }
    DistinctMultiset(Keys(ms), Keys(ns));
    MappedAlike(Keys(ms), Keys(ns), f);
    assert Rows(ms) == Mapped(Keys(ms), f);
    assert Rows(ns) == Mapped(Keys(ns), f);
  }

  lemma Head<T>(a: seq<T>)
    ensures a != [] ==> a[0] in a
  {
  }

  /** A set of ids has one descending order. */
  lemma {:induction false} DescendingUnique(a: seq<string>, b: seq<string>, s: set<string>)
    requires IsDescending(a, s) && IsDescending(b, s)
    ensures a == b
    decreases |a|
  {
    hide LexLess;
    Head(a);
    Head(b);
    if a != [] {
      var j :| 0 <= j < |b| && b[j] == a[0];
      var i :| 0 <= i < |a| && a[i] == b[0];
      if j > 0 && i > 0 { LexTransitive(a[0], b[0], a[0]); }
      LexIrreflexive(a[0]);
      assert i == 0 || j == 0;
      assert a[0] == b[0];
      Rest(a, s);
      Rest(b, s);
      DescendingUnique(a[1..], b[1..], s - {a[0]});
      assert a == [a[0]] + a[1..] && b == [b[0]] + b[1..];
    }
  }

  lemma Rest(a: seq<string>, s: set<string>)
    requires IsDescending(a, s) && a != []
    ensures IsDescending(a[1..], s - {a[0]})
  {
    hide LexLess;
    LexIrreflexive(a[0]);
    forall id ensures id in a[1..] <==> id in s - {a[0]} {
      if id in s && id != a[0] {
        var i :| 0 <= i < |a| && a[i] == id;
        assert a[1..][i - 1] == id;
      }
    }
  }

  lemma SaysOne(l: Line, a: seq<Mention>, b: seq<Mention>)
    requires Says(l, a) && Says(l, b)
    ensures a == b
  {
    hide AskedAll;
    if l.Request? {
      var x :| IsDescending(x, l.channels.Keys) && a == AskedAll(l, x);
      var y :| IsDescending(y, l.channels.Keys) && b == AskedAll(l, y);
      DescendingUnique(x, y, l.channels.Keys);
    }
  }

  lemma {:induction false} SaysDeterminate(lines: seq<Line>, a: seq<Mention>, b: seq<Mention>)
    requires SaysAll(lines, a) && SaysAll(lines, b)
    ensures a == b
  {
    hide Says;
    if lines != [] {
      var n := |lines| - 1;
      var x, y :| SaysAll(lines[..n], x) && Says(lines[n], y) && a == x + y;
      var v, w :| SaysAll(lines[..n], v) && Says(lines[n], w) && b == v + w;
      SaysDeterminate(lines[..n], x, v);
      SaysOne(lines[n], y, w);
    }
  }

  /** The lines leave no choice: map order, which the channels of a request line come in, does not reach the rows. */
  lemma FoldDeterminate(lines: seq<Line>, out: seq<Delivery>, other: seq<Delivery>)
    requires Folded(lines, out) && Folded(lines, other)
    ensures out == other
  {
    hide SaysAll, Rows;
    var a :| SaysAll(lines, a) && out == Rows(a);
    var b :| SaysAll(lines, b) && other == Rows(b);
    SaysDeterminate(lines, a, b);
  }

  lemma SaysJoin(lines: seq<Line>, a: seq<Mention>, b: seq<Mention>)
    requires lines != [] && SaysAll(lines[..|lines| - 1], a) && Says(lines[|lines| - 1], b)
    ensures SaysAll(lines, a + b)
  {
  }

  /** Taking one line out takes what it says out. */
  lemma {:induction false} SaysWithout(lines: seq<Line>, ms: seq<Mention>, p: nat)
      returns (rest: seq<Mention>, said: seq<Mention>)
    requires SaysAll(lines, ms) && p < |lines|
    ensures SaysAll(lines[..p] + lines[p + 1..], rest) && Says(lines[p], said)
    ensures multiset(ms) == multiset(rest) + multiset(said)
  {
    hide Says;
    var n := |lines| - 1;
    var a, b :| SaysAll(lines[..n], a) && Says(lines[n], b) && ms == a + b;
    hide SaysAll;
    if p == n {
      rest, said := a, b;
      assert lines[..p] + lines[p + 1..] == lines[..n];
    } else {
      var left;
      left, said := SaysWithout(lines[..n], a, p);
      rest := left + b;
      WithoutLast(lines, p);
      SaysJoin(lines[..p] + lines[p + 1..], left, b);
    }
  }

  lemma WithoutLast(lines: seq<Line>, p: nat)
    requires p < |lines| - 1
    ensures var n, cut := |lines| - 1, lines[..p] + lines[p + 1..];
            && |cut| == n && cut[..n - 1] == lines[..n][..p] + lines[..n][p + 1..] && cut[n - 1] == lines[n]
            && lines[..n][p] == lines[p]
  {
  }

  /** Permuted lines say the same, as a multiset. */
  lemma {:induction false} SaysPermuted(lines: seq<Line>, others: seq<Line>, ms: seq<Mention>, ns: seq<Mention>)
    requires SaysAll(lines, ms) && SaysAll(others, ns) && multiset(lines) == multiset(others)
    ensures multiset(ms) == multiset(ns)
  {
    hide Says;
    if lines == [] {
      BothEmpty(lines, others);
    } else {
      var n := |lines| - 1;
      var a, b :| SaysAll(lines[..n], a) && Says(lines[n], b) && ms == a + b;
      var p := FoundIn(lines, others);
      var rest, said := SaysWithout(others, ns, p);
      hide SaysAll;
      SaysPermuted(lines[..n], others[..p] + others[p + 1..], a, rest);
      SaysOne(lines[n], b, said);
    }
  }

  /**
   * Order independence: the same lines in any order fold into the same rows, as a multiset, when each delivery has at
   * most one request and one terminal line and they agree on the caller.
   */
  lemma RowsIgnoreOrder(lines: seq<Line>, others: seq<Line>, ms: seq<Mention>, ns: seq<Mention>)
    requires SaysAll(lines, ms) && SaysAll(others, ns) && multiset(lines) == multiset(others) && Sparse(ms)
    ensures multiset(Rows(ms)) == multiset(Rows(ns))
  {
    SaysPermuted(lines, others, ms, ns);
    SameRows(ms, ns);
  }
}
