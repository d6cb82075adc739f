/** Byte strings as Go sees them: their byte-wise order, and the unique sorted
    listing of a finite set of them (what sort.Strings makes of a map's keys). */
module Octets {
  type byte = b: int | 0 <= b < 256

  type Bytes = seq<byte>

  const MAX_INT64: int := 0x7fff_ffff_ffff_ffff
  const MIN_INT64: int := -0x8000_0000_0000_0000

  type int64 = n: int | MIN_INT64 <= n <= MAX_INT64

  /** A Go string or slice: its length is itself an int. */
  type GoString = s: Bytes | |s| <= MAX_INT64

  /** Two's complement wrap-around of an int64 result. */
  function Wrap64(n: int): (r: int64)
    ensures MIN_INT64 <= n <= MAX_INT64 ==> r == n
  {
    (n + 0x8000_0000_0000_0000) % 0x1_0000_0000_0000_0000 - 0x8000_0000_0000_0000
  }

  /** The bytes of an ASCII literal. */
  function Ascii(s: string): (r: GoString)
    requires |s| <= MAX_INT64
    ensures |r| == |s|
  {
    seq(|s|, i requires 0 <= i < |s| => s[i] as int % 256)
  }

  /** The position of the first `c` at or after `from`, or the length if there is none. */
  function IndexFrom(s: Bytes, from: nat, c: byte): (r: nat)
    requires from <= |s|
    ensures from <= r <= |s|
    ensures r < |s| ==> s[r] == c
    ensures forall i :: from <= i < r ==> s[i] != c
    decreases |s| - from
  {
    if from == |s| || s[from] == c then from else IndexFrom(s, from + 1, c)
  }

  lemma IndexFromIs(s: Bytes, from: nat, c: byte, at: nat)
    requires from <= at < |s| && s[at] == c
    requires forall i :: from <= i < at ==> s[i] != c
    ensures IndexFrom(s, from, c) == at
  {
    var r := IndexFrom(s, from, c);
    assert !(at < r) && (r < at ==> r < |s|);
  }

  // ---------------------------------------------------------------- order

  /** Go's `<` on strings. */
  predicate Less(a: Bytes, b: Bytes) {
    if b == [] then false
    else if a == [] then true
    else a[0] < b[0] || (a[0] == b[0] && Less(a[1..], b[1..]))
  }

  /** At the first difference the lesser byte decides; a proper prefix comes first. */
  lemma {:induction false} LessIff(a: Bytes, b: Bytes)
    ensures Less(a, b) <==> exists n: nat :: LessAt(a, b, n)
  {
    if a != [] && b != [] && a[0] == b[0] {
      LessIff(a[1..], b[1..]);
      if Less(a, b) {
        var n: nat :| LessAt(a[1..], b[1..], n);
        assert a[..n + 1] == [a[0]] + a[1..][..n] && b[..n + 1] == [b[0]] + b[1..][..n];
        assert LessAt(a, b, n + 1);
      }
      if n: nat :| LessAt(a, b, n) {
        if n > 0 {
          assert a[1..][..n - 1] == a[..n][1..] && b[1..][..n - 1] == b[..n][1..];
          assert LessAt(a[1..], b[1..], n - 1);
        }
      }
    } else {
      if Less(a, b) { assert LessAt(a, b, 0); }
      if n: nat :| LessAt(a, b, n) { assert n > 0 ==> a[..n][0] == b[..n][0]; }
    }
  }

  predicate LessAt(a: Bytes, b: Bytes, n: nat) {
    n <= |a| && n < |b| && a[..n] == b[..n] && (n == |a| || a[n] < b[n])
  }

  lemma {:induction false} LessIrreflexive(a: Bytes)
    ensures !Less(a, a)
  {
    if a != [] { LessIrreflexive(a[1..]); }
  }

  lemma {:induction false} LessTransitive(a: Bytes, b: Bytes, c: Bytes)
    requires Less(a, b) && Less(b, c)
    ensures Less(a, c)
  {
    if a != [] && a[0] == b[0] == c[0] { LessTransitive(a[1..], b[1..], c[1..]); }
  }

  lemma {:induction false} LessTotal(a: Bytes, b: Bytes)
    ensures a == b || Less(a, b) || Less(b, a)
  {
    if a != [] && b != [] && a[0] == b[0] {
      LessTotal(a[1..], b[1..]);
      assert a == [a[0]] + a[1..] && b == [b[0]] + b[1..];
    }
  }

  ghost predicate Sorted(ks: seq<GoString>) {
    forall i, j :: 0 <= i < j < |ks| ==> Less(ks[i], ks[j])
  }

  lemma SortedDistinct(ks: seq<GoString>)
    requires Sorted(ks)
    ensures forall i, j :: 0 <= i < j < |ks| ==> ks[i] != ks[j]
  {
    forall i, j | 0 <= i < j < |ks| ensures ks[i] != ks[j] { LessIrreflexive(ks[i]); }
  }

  /** Two sorted listings of the same keys are the same listing. */
  lemma {:induction false} SortedUnique(a: seq<GoString>, b: seq<GoString>)
    requires Sorted(a) && Sorted(b)
    requires forall k :: k in a <==> k in b
    ensures a == b
  {
    assert a != [] ==> a[0] in a;
    assert b != [] ==> b[0] in b;
    if a == [] {
    } else {
      assert a[0] in b && b[0] in a;
      var i :| 0 <= i < |b| && b[i] == a[0];
      var j :| 0 <= j < |a| && a[j] == b[0];
      if i > 0 {
        if j > 0 { LessTransitive(a[0], a[j], b[i]); }
        LessIrreflexive(a[0]);
        assert false;
      }
      SortedDistinct(a);
      SortedDistinct(b);
      forall k ensures k in a[1..] <==> k in b[1..] {
        assert k in a <==> k == a[0] || k in a[1..];
        assert k in b <==> k == b[0] || k in b[1..];
      }
      SortedUnique(a[1..], b[1..]);
      assert a == [a[0]] + a[1..] && b == [b[0]] + b[1..];
    }
  }

  lemma {:induction false} LeastExists(s: set<GoString>)
    requires s != {}
    ensures exists k :: k in s && forall x :: x in s ==> x == k || Less(k, x)
  {
    var y :| y in s;
    if s == {y} {
    } else {
      var rest := s - {y};
      LeastExists(rest);
      var k :| k in rest && forall x :: x in rest ==> x == k || Less(k, x);
      LessTotal(k, y);
      if Less(y, k) {
        forall x | x in s ensures x == y || Less(y, x) {
          if x != y && x != k { LessTransitive(y, k, x); }
        }
      } else {
        assert forall x :: x in s ==> x == k || Less(k, x);
      }
    }
  }

  /** The keys of a map in the order sort.Strings leaves them. */
  ghost function SortedKeys(s: set<GoString>): (r: seq<GoString>)
    ensures Sorted(r)
    ensures forall k :: k in r <==> k in s
  {
    if s == {} then []
    else
      LeastExists(s);
      var k :| k in s && forall x :: x in s ==> x == k || Less(k, x);
      [k] + SortedKeys(s - {k})
  }

  lemma InsertKeepsSorted(ks: seq<GoString>, k: GoString, at: nat)
    requires Sorted(ks) && k !in ks && at <= |ks|
    requires forall i :: 0 <= i < at ==> Less(ks[i], k)
    requires at < |ks| ==> !Less(ks[at], k)
    ensures Sorted(ks[..at] + [k] + ks[at..])
    ensures forall x :: x in ks[..at] + [k] + ks[at..] <==> x in ks || x == k
  {
    forall i | at <= i < |ks| ensures Less(k, ks[i]) {
      LessTotal(ks[at], k);
      if i > at { LessTransitive(k, ks[at], ks[i]); }
    }
    var r := ks[..at] + [k] + ks[at..];
    forall i, j | 0 <= i < j < |r| ensures Less(r[i], r[j]) {
      if i < at < j { LessTransitive(r[i], k, r[j]); }
    }
    assert ks == ks[..at] + ks[at..];
  }

  /** A new key splits the listing of the old ones at the place where it belongs. */
  lemma {:induction false} SortedInsert(s: set<GoString>, k: GoString) returns (at: nat)
    requires k !in s
    ensures at <= |SortedKeys(s)|
    ensures SortedKeys(s + {k}) == SortedKeys(s)[..at] + [k] + SortedKeys(s)[at..]
    ensures (forall x :: x in s ==> Less(x, k)) ==> at == |SortedKeys(s)|
  {
    var ks := SortedKeys(s);
    at := 0;
    while at < |ks| && Less(ks[at], k)
      invariant at <= |ks|
      invariant forall i :: 0 <= i < at ==> Less(ks[i], k)
    {
      at := at + 1;
    }
    assert at < |ks| ==> ks[at] in s;
    InsertKeepsSorted(ks, k, at);
    SortedUnique(ks[..at] + [k] + ks[at..], SortedKeys(s + {k}));
  }
}
