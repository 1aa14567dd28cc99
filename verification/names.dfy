/**
 * Spool file names: a class digit, the enqueue time in nanoseconds and the request id. The name orders the queue, and
 * the age that eviction goes by is read back out of it.
 */
module Names {
  import opened Wrappers

  /** What a spool file name stands for. */
  datatype Name = Name(test: bool, at: int, id: string)

  /** Byte-wise string order, the order of sort.Strings. */
  predicate LexLess(a: string, b: string) {
    if b == "" then false
    else if a == "" then true
    else a[0] < b[0] || (a[0] == b[0] && LexLess(a[1..], b[1..]))
  }

  const SUFFIX: string := ".json"

  /** Delivery order: test sends first, then by enqueue time, then by request id with the suffix of the file name. */
  predicate Before(a: Name, b: Name) {
    if a.test != b.test then a.test
    else if a.at != b.at then a.at < b.at
    else LexLess(a.id + SUFFIX, b.id + SUFFIX)
  }

  /** A directory listing in queue order: every name once, sorted. */
  ghost predicate Listing(names: seq<Name>, files: set<Name>) {
    && (forall n :: n in names <==> n in files)
    && (forall i, j :: 0 <= i < j < |names| ==> Before(names[i], names[j]))
  }

  /** Position j holds the first of the oldest names outside skip among the first k. */
  predicate FirstOldest(names: seq<Name>, skip: set<Name>, k: nat, j: nat)
    requires k <= |names|
  {
    && j < k && names[j] !in skip
    && (forall i :: 0 <= i < k && names[i] !in skip ==> names[j].at <= names[i].at)
    && (forall i :: 0 <= i < j && names[i] !in skip ==> names[j].at < names[i].at)
  }

  /** The position of the eviction victim among the first k names, if any of them may go. */
  function OldestAt(names: seq<Name>, skip: set<Name>, k: nat): (p: Option<nat>)
    requires k <= |names|
    ensures p.None? <==> forall i :: 0 <= i < k ==> names[i] in skip
    ensures p.Some? ==> FirstOldest(names, skip, k, p.value)
  {
    if k == 0 then None
    else
      var best := OldestAt(names, skip, k - 1);
      if names[k - 1] in skip then best
      else if best.None? || names[k - 1].at < names[best.value].at then Some(k - 1)
      else best
  }

  /** The eviction victim: the first of the oldest names outside skip. */
  function Oldest(names: seq<Name>, skip: set<Name>): Option<Name> {
    var p := OldestAt(names, skip, |names|);
    if p.None? then None else Some(names[p.value])
  }

  lemma {:induction false} LexTotal(a: string, b: string)
    ensures a == b || LexLess(a, b) || LexLess(b, a)
  {
    if a != "" && b != "" && a[0] == b[0] {
      LexTotal(a[1..], b[1..]);
      assert a == [a[0]] + a[1..] && b == [b[0]] + b[1..];
    }
  }

  lemma {:induction false} LexTransitive(a: string, b: string, c: string)
    requires LexLess(a, b) && LexLess(b, c)
    ensures LexLess(a, c)
  {
    if a != "" && a[0] == b[0] == c[0] { LexTransitive(a[1..], b[1..], c[1..]); }
  }

  lemma {:induction false} LexIrreflexive(a: string)
    ensures !LexLess(a, a)
  {
    if a != "" { LexIrreflexive(a[1..]); }
  }

  lemma BeforeTransitive(a: Name, b: Name, c: Name)
    requires Before(a, b) && Before(b, c)
    ensures Before(a, c)
  {
    var x, y, z := a.id + SUFFIX, b.id + SUFFIX, c.id + SUFFIX;
    if LexLess(x, y) && LexLess(y, z) { LexTransitive(x, y, z); }
  }

  /** Queue order is total on distinct names. */
  lemma BeforeTotal(a: Name, b: Name)
    ensures a == b || Before(a, b) || Before(b, a)
  {
    LexTotal(a.id + SUFFIX, b.id + SUFFIX);
    if a.id + SUFFIX == b.id + SUFFIX {
      assert a.id == (a.id + SUFFIX)[..|a.id + SUFFIX| - 5] && b.id == (b.id + SUFFIX)[..|b.id + SUFFIX| - 5];
    }
  }

  lemma BeforeIrreflexive(a: Name)
    ensures !Before(a, a)
  {
    LexIrreflexive(a.id + SUFFIX);
  }
}
