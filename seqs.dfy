/** The Swift collection operations the app relies on (`filter`,
    `firstIndex(where:)`, `remove(atOffsets:)`), stated over sequences. */
module Seqs {

  datatype Option<T> = None | Some(value: T)

  /** `filter(p)`: the elements of s that satisfy p, in their original order. */
  function Filter<T>(s: seq<T>, p: T -> bool): (r: seq<T>)
    ensures |r| <= |s|
    ensures forall k :: 0 <= k < |r| ==> p(r[k])
  {
    if s == [] then [] else (if p(s[0]) then [s[0]] else []) + Filter(s[1..], p)
  }

  /** a is obtained from b by deleting elements; the order of the rest is kept. */
  predicate IsSubsequence<T(==)>(a: seq<T>, b: seq<T>)
    decreases |b|
  {
    if b == [] then a == []
    else (a != [] && a[0] == b[0] && IsSubsequence(a[1..], b[1..])) || IsSubsequence(a, b[1..])
  }

  lemma {:induction false} SubsequenceMembers<T>(a: seq<T>, b: seq<T>)
    requires IsSubsequence(a, b)
    ensures forall x :: x in a ==> x in b
    decreases |b|
  {
    if b != [] {
      if a != [] && a[0] == b[0] && IsSubsequence(a[1..], b[1..]) {
        SubsequenceMembers(a[1..], b[1..]);
        assert a == [a[0]] + a[1..];
      } else {
        SubsequenceMembers(a, b[1..]);
      }
    }
  }

  /** An element is kept by the filter exactly when it is in s and satisfies p. */
  lemma {:induction false} FilterMembers<T>(s: seq<T>, p: T -> bool)
    ensures forall x :: x in Filter(s, p) <==> x in s && p(x)
  {
    if s != [] {
      FilterMembers(s[1..], p);
      assert s == [s[0]] + s[1..];
    }
  }

  /** The filter keeps the order of s. */
  lemma {:induction false} FilterIsSubsequence<T>(s: seq<T>, p: T -> bool)
    ensures IsSubsequence(Filter(s, p), s)
  {
    if s != [] {
      FilterIsSubsequence(s[1..], p);
      var r := Filter(s, p);
      if p(s[0]) {
        assert r[0] == s[0] && r[1..] == Filter(s[1..], p);
      } else {
        assert r == Filter(s[1..], p);
      }
    }
  }

  /** Filtering distributes over concatenation. */
  lemma {:induction false} FilterAppend<T>(a: seq<T>, b: seq<T>, p: T -> bool)
    ensures Filter(a + b, p) == Filter(a, p) + Filter(b, p)
    decreases |a|
  {
    if a != [] {
      FilterAppend(a[1..], b, p);
      assert (a + b)[0] == a[0] && (a + b)[1..] == a[1..] + b;
      var h := if p(a[0]) then [a[0]] else [];
      var fa, fb := Filter(a[1..], p), Filter(b, p);
      assert Filter(a + b, p) == h + (fa + fb);
      assert Filter(a, p) == h + fa;
      assert h + (fa + fb) == (h + fa) + fb;
    } else {
      assert a + b == b;
    }
  }

  /** A filter that keeps everything is the identity. */
  lemma {:induction false} FilterAll<T>(s: seq<T>, p: T -> bool)
    requires forall k :: 0 <= k < |s| ==> p(s[k])
    ensures Filter(s, p) == s
  {
    if s != [] {
      FilterAll(s[1..], p);
      assert s == [s[0]] + s[1..];
    }
  }

  /** `firstIndex(where: p)`: the position of the first element satisfying p. */
  function FirstIndex<T>(s: seq<T>, p: T -> bool): (r: Option<nat>)
    ensures r.Some? ==> r.value < |s| && p(s[r.value])
    ensures r.Some? ==> forall j :: 0 <= j < r.value ==> !p(s[j])
    ensures r.None? <==> forall j :: 0 <= j < |s| ==> !p(s[j])
  {
    if s == [] then None
    else if p(s[0]) then Some(0)
    else match FirstIndex(s[1..], p)
      case None => None
      case Some(k) => Some(k + 1)
  }

  /** Number of positions below n that are not in offsets. */
  function KeptBefore(offsets: set<int>, n: nat): nat {
    if n == 0 then 0 else KeptBefore(offsets, n - 1) + (if n - 1 in offsets then 0 else 1)
  }

  /** `remove(atOffsets:)`: s without the elements at the given positions. */
  function RemoveAtOffsets<T>(s: seq<T>, offsets: set<int>): (r: seq<T>)
    ensures |r| == KeptBefore(offsets, |s|)
  {
    if s == [] then []
    else RemoveAtOffsets(s[..|s| - 1], offsets) + (if |s| - 1 in offsets then [] else [s[|s| - 1]])
  }

  /** The element at every position outside offsets survives, and lands after
      exactly the survivors that preceded it: the result is the kept
      elements, in order. */
  lemma {:induction false} RemoveAtOffsetsKeeps<T>(s: seq<T>, offsets: set<int>)
    ensures forall i :: 0 <= i < |s| && i !in offsets ==>
      KeptBefore(offsets, i) < |RemoveAtOffsets(s, offsets)| &&
      RemoveAtOffsets(s, offsets)[KeptBefore(offsets, i)] == s[i]
  {
    if s != [] {
      var front := s[..|s| - 1];
      RemoveAtOffsetsKeeps(front, offsets);
      forall i | 0 <= i < |s| && i !in offsets
        ensures KeptBefore(offsets, i) < |RemoveAtOffsets(s, offsets)|
        ensures RemoveAtOffsets(s, offsets)[KeptBefore(offsets, i)] == s[i]
      {
        if i < |s| - 1 {
          KeptBeforeMonotone(offsets, i, |s| - 1);
          assert front[i] == s[i];
        }
      }
    }
  }

  lemma {:induction false} KeptBeforeMonotone(offsets: set<int>, i: nat, n: nat)
    requires i < n && i !in offsets
    ensures KeptBefore(offsets, i) < KeptBefore(offsets, n)
    decreases n
  {
    if i < n - 1 {
      KeptBeforeMonotone(offsets, i, n - 1);
    }
  }

  /** When every offset is a valid position, exactly |offsets| elements go. */
  lemma {:induction false} KeptBeforeCount(offsets: set<int>, n: nat)
    requires forall o :: o in offsets ==> 0 <= o < n
    ensures KeptBefore(offsets, n) == n - |offsets|
  {
    if n == 0 {
      assert forall o :: o !in offsets;
      assert offsets == {};
    } else {
      var below := offsets - {n - 1};
      KeptBeforeCount(below, n - 1);
      KeptBeforeIgnoresAbove(offsets, below, n - 1);
    }
  }

  lemma {:induction false} KeptBeforeIgnoresAbove(offsets: set<int>, other: set<int>, n: nat)
    requires forall o :: 0 <= o < n ==> (o in offsets <==> o in other)
    ensures KeptBefore(offsets, n) == KeptBefore(other, n)
  {
    if n > 0 {
      KeptBeforeIgnoresAbove(offsets, other, n - 1);
    }
  }

  /** The elements left after the removals all come from s, in order. */
  lemma {:induction false} RemoveAtOffsetsIsSubsequence<T>(s: seq<T>, offsets: set<int>)
    ensures IsSubsequence(RemoveAtOffsets(s, offsets), s)
  {
    if s != [] {
      var front := s[..|s| - 1];
      RemoveAtOffsetsIsSubsequence(front, offsets);
      var last := if |s| - 1 in offsets then [] else [s[|s| - 1]];
      SubsequenceAppend(RemoveAtOffsets(front, offsets), front, last, [s[|s| - 1]]);
      assert s == front + [s[|s| - 1]];
    }
  }

  lemma {:induction false} SubsequenceAppend<T>(a: seq<T>, b: seq<T>, c: seq<T>, d: seq<T>)
    requires IsSubsequence(a, b) && IsSubsequence(c, d)
    ensures IsSubsequence(a + c, b + d)
    decreases |b|
  {
    if b == [] {
      assert a == [];
      assert a + c == c && b + d == d;
    } else {
      assert (b + d)[1..] == b[1..] + d;
      if a != [] && a[0] == b[0] && IsSubsequence(a[1..], b[1..]) {
        SubsequenceAppend(a[1..], b[1..], c, d);
        assert (a + c)[1..] == a[1..] + c;
      } else {
        SubsequenceAppend(a, b[1..], c, d);
      }
    }
  }

  lemma SubsequenceEmpty<T>(d: seq<T>)
    ensures IsSubsequence([], d)
    decreases |d|
  {
    if d != [] {
      SubsequenceEmpty(d[1..]);
    }
  }

  lemma {:induction false} PrefixIsSubsequence<T>(s: seq<T>, n: nat)
    requires n <= |s|
    ensures IsSubsequence(s[..n], s)
    decreases |s|
  {
    if s != [] {
      if n == 0 {
        SubsequenceEmpty(s);
      } else {
        PrefixIsSubsequence(s[1..], n - 1);
        assert s[..n][1..] == s[1..][..n - 1];
      }
    }
  }

  lemma {:induction false} SubsequenceTransitive<T>(a: seq<T>, b: seq<T>, c: seq<T>)
    requires IsSubsequence(a, b) && IsSubsequence(b, c)
    ensures IsSubsequence(a, c)
    decreases |c|
  {
    if c != [] {
      if b != [] && b[0] == c[0] && IsSubsequence(b[1..], c[1..]) {
        if a != [] && a[0] == b[0] && IsSubsequence(a[1..], b[1..]) {
          SubsequenceTransitive(a[1..], b[1..], c[1..]);
        } else {
          SubsequenceTransitive(a, b[1..], c[1..]);
        }
      } else {
        SubsequenceTransitive(a, b, c[1..]);
      }
    }
  }

  /** Position i of s with position k spliced out. */
  lemma SpliceIndex<T>(s: seq<T>, k: nat, i: nat)
    requires k < |s| && i < |s| - 1
    ensures (s[..k] + s[k + 1..])[i] == s[if i < k then i else i + 1]
  {
  }

  /** Splicing out position k keeps exactly the other elements. */
  lemma SpliceMembers<T>(s: seq<T>, k: nat)
    requires k < |s|
    ensures forall x :: x in s[..k] + s[k + 1..] ==> x in s
    ensures forall m :: 0 <= m < |s| && m != k ==> s[m] in s[..k] + s[k + 1..]
  {
    var t := s[..k] + s[k + 1..];
    forall m | 0 <= m < |s| && m != k ensures s[m] in t {
      var i := if m < k then m else m - 1;
      SpliceIndex(s, k, i);
    }
  }

  /** Splicing a position out of a duplicate-free sequence leaves it
      duplicate-free and without the spliced element. */
  lemma SpliceNoDuplicates<T>(s: seq<T>, k: nat)
    requires k < |s| && NoDuplicates(s)
    ensures NoDuplicates(s[..k] + s[k + 1..])
    ensures s[k] !in s[..k] + s[k + 1..]
  {
    var t := s[..k] + s[k + 1..];
    forall i, j | 0 <= i < j < |t| ensures t[i] != t[j] {
      SpliceIndex(s, k, i);
      SpliceIndex(s, k, j);
    }
    forall i | 0 <= i < |t| ensures t[i] != s[k] {
      SpliceIndex(s, k, i);
    }
  }

  /** Removing a single position splices the sequence around it. */
  lemma {:induction false} RemoveAtSingleOffset<T>(s: seq<T>, k: nat)
    requires k < |s|
    ensures RemoveAtOffsets(s, {k}) == s[..k] + s[k + 1..]
  {
    if k == |s| - 1 {
      RemoveAtOffsetsNone(s[..k], {k});
    } else {
      RemoveAtSingleOffset(s[..|s| - 1], k);
      assert s[..|s| - 1][..k] == s[..k];
      assert s[..|s| - 1][k + 1..] + [s[|s| - 1]] == s[k + 1..];
    }
  }

  /** Offsets beyond the end remove nothing. */
  lemma {:induction false} RemoveAtOffsetsNone<T>(s: seq<T>, offsets: set<int>)
    requires forall o :: o in offsets ==> o < 0 || o >= |s|
    ensures RemoveAtOffsets(s, offsets) == s
  {
    if s != [] {
      RemoveAtOffsetsNone(s[..|s| - 1], offsets);
    }
  }

  /** Pairwise distinct elements. */
  predicate NoDuplicates<T(==)>(s: seq<T>) {
    forall i, j :: 0 <= i < j < |s| ==> s[i] != s[j]
  }
}
