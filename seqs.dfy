/** Sequence helpers shared by the whole model: sums, integer ranges, flattening. */
module Seqs {

  /** Sum of a sequence of integers, added left to right as Python's `sum` does. */
  function Sum(s: seq<int>): int
  {
    if |s| == 0 then 0 else Sum(s[..|s| - 1]) + s[|s| - 1]
  }

  lemma SumAppend(s: seq<int>, x: int)
    ensures Sum(s + [x]) == Sum(s) + x
  {
    assert (s + [x])[..|s|] == s;
  }

  lemma {:induction false} SumConcat(a: seq<int>, b: seq<int>)
    ensures Sum(a + b) == Sum(a) + Sum(b)
    decreases |b|
  {
    if |b| == 0 {
      assert a + b == a;
    } else {
      var b' := b[..|b| - 1];
      assert a + b == (a + b') + [b[|b| - 1]];
      SumAppend(a + b', b[|b| - 1]);
      SumConcat(a, b');
      assert b == b' + [b[|b| - 1]];
      SumAppend(b', b[|b| - 1]);
    }
  }

  /** Adding one to the entry at `i` adds one to the sum. */
  lemma {:induction false} SumIncrement(s: seq<int>, i: nat)
    requires i < |s|
    ensures Sum(s[i := s[i] + 1]) == Sum(s) + 1
    decreases |s|
  {
    var last := |s| - 1;
    var t := s[i := s[i] + 1];
    assert t[..last] == if i == last then s[..last] else s[..last][i := s[i] + 1];
    if i < last {
      SumIncrement(s[..last], i);
    }
  }

  lemma {:induction false} SumNonNegative(s: seq<int>)
    requires forall k :: 0 <= k < |s| ==> s[k] >= 0
    ensures Sum(s) >= 0
    decreases |s|
  {
    if |s| > 0 {
      SumNonNegative(s[..|s| - 1]);
    }
  }

  /** The integers lo, lo + 1, ..., hi - 1 (Python's `range(lo, hi)`). */
  function Range(lo: int, hi: int): (r: seq<int>)
    ensures |r| == if hi > lo then hi - lo else 0
    ensures forall k :: 0 <= k < |r| ==> r[k] == lo + k
  {
    seq(if hi > lo then hi - lo else 0, k => lo + k)
  }

  lemma RangeMembership(lo: int, hi: int, x: int)
    ensures x in Range(lo, hi) <==> lo <= x < hi
  {
    if lo <= x < hi {
      assert Range(lo, hi)[x - lo] == x;
    }
  }

  lemma RangeSnoc(lo: int, hi: int)
    requires lo <= hi
    ensures Range(lo, hi + 1) == Range(lo, hi) + [hi]
  {
  }

  /** Concatenation of a sequence of sequences, in order. */
  function Flatten<T>(ss: seq<seq<T>>): seq<T>
  {
    if |ss| == 0 then [] else Flatten(ss[..|ss| - 1]) + ss[|ss| - 1]
  }

  lemma FlattenAppend<T>(ss: seq<seq<T>>, s: seq<T>)
    ensures Flatten(ss + [s]) == Flatten(ss) + s
  {
    assert (ss + [s])[..|ss|] == ss;
  }

  /** Appending x to the i-th part adds exactly one x to the flattened multiset. */
  lemma {:induction false} FlattenAppendAt<T>(ss: seq<seq<T>>, i: nat, x: T)
    requires i < |ss|
    ensures multiset(Flatten(ss[i := ss[i] + [x]])) == multiset(Flatten(ss)) + multiset{x}
    decreases |ss|
  {
    var last := |ss| - 1;
    var t := ss[i := ss[i] + [x]];
    if i == last {
      assert t[..last] == ss[..last];
    } else {
      assert t[..last] == ss[..last][i := ss[i] + [x]];
      FlattenAppendAt(ss[..last], i, x);
    }
  }

  predicate StrictlyIncreasing(s: seq<int>)
  {
    forall i, j :: 0 <= i < j < |s| ==> s[i] < s[j]
  }

  predicate Distinct<T(==)>(s: seq<T>)
  {
    forall i, j :: 0 <= i < j < |s| ==> s[i] != s[j]
  }

  lemma IncreasingIsDistinct(s: seq<int>)
    requires StrictlyIncreasing(s)
    ensures Distinct(s)
  {
  }

  /** A distinct sequence holds each value at most once. */
  lemma {:induction false} DistinctCounts<T>(s: seq<T>, x: T)
    requires Distinct(s)
    ensures multiset(s)[x] <= 1
    decreases |s|
  {
    if |s| > 0 {
      var last := |s| - 1;
      assert s == s[..last] + [s[last]];
      DistinctCounts(s[..last], x);
      if s[last] == x {
        assert x !in s[..last];
      }
    }
  }

  /** A sub-multiset of a distinct sequence is itself distinct. */
  lemma DistinctSubmultiset<T>(a: seq<T>, b: seq<T>)
    requires Distinct(b)
    requires multiset(a) <= multiset(b)
    ensures Distinct(a)
  {
    forall i, j | 0 <= i < j < |a|
      ensures a[i] != a[j]
    {
      if a[i] == a[j] {
        var x := a[i];
        assert a == a[..j] + [a[j]] + a[j + 1..];
        assert x in a[..j];
        assert multiset(a)[x] >= 2;
        DistinctCounts(b, x);
        assert false;
      }
    }
  }

  function Min(a: int, b: int): int
  {
    if a <= b then a else b
  }

  /** Python's slice `s[a:b]` for non-negative bounds: both are clamped to the length, and an
      empty slice results when a lies at or beyond b. */
  function Slice<T>(s: seq<T>, a: nat, b: nat): (r: seq<T>)
    ensures |r| == if Min(b, |s|) > Min(a, |s|) then Min(b, |s|) - Min(a, |s|) else 0
  {
    var lo := Min(a, |s|);
    var hi := Min(b, |s|);
    if hi > lo then s[lo..hi] else []
  }

  /** Within bounds, a slice is the subsequence between them. */
  lemma SliceWithin<T>(s: seq<T>, a: nat, b: nat)
    requires a <= b <= |s|
    ensures Slice(s, a, b) == s[a..b]
    ensures |Slice(s, a, b)| == b - a
  {
  }

  /** Two adjacent slices make the slice that spans both. */
  lemma SliceAdjacent<T>(s: seq<T>, a: nat, b: nat, c: nat)
    requires a <= b <= c
    ensures Slice(s, a, b) + Slice(s, b, c) == Slice(s, a, c)
  {
  }

  /** Slicing from `a` to the end, after slicing up to `a`, gives the whole sequence back. */
  lemma SliceSplit<T>(s: seq<T>, a: nat)
    ensures Slice(s, 0, a) + Slice(s, a, |s|) == s
  {
  }

  function Empties<T>(n: nat): (r: seq<seq<T>>)
    ensures |r| == n
    ensures forall i :: 0 <= i < n ==> r[i] == []
  {
    seq(n, _ => [])
  }

  lemma FlattenEmpty<T>(n: nat)
    ensures Flatten(Empties<T>(n)) == []
  {
    if n > 0 {
      assert Empties<T>(n)[..n - 1] == Empties<T>(n - 1);
      FlattenEmpty<T>(n - 1);
    }
  }

  lemma {:induction false} FlattenConcat<T>(a: seq<seq<T>>, b: seq<seq<T>>)
    ensures Flatten(a + b) == Flatten(a) + Flatten(b)
    decreases |b|
  {
    if |b| > 0 {
      var b', x := b[..|b| - 1], b[|b| - 1];
      assert a + b == (a + b') + [x];
      assert b == b' + [x];
      FlattenAppend(a + b', x);
      FlattenAppend(b', x);
      FlattenConcat(a, b');
    } else {
      assert a + b == a;
    }
  }

  /** Appending the next element to the written prefix leaves the longer prefix. */
  lemma Extend<T>(w: seq<T>, start: seq<T>, s: seq<T>, i: nat)
    requires i < |s| && w == start + s[..i]
    ensures w + [s[i]] == start + s[..i + 1]
  {
    assert s[..i + 1] == s[..i] + [s[i]];
  }

  /** Writing a two-line header, a body and a tail one piece at a time. */
  lemma AppendAssoc<T>(a: seq<T>, b: seq<T>, c: seq<T>)
    ensures a + b + c == a + (b + c)
  {
  }

  lemma AppendPieces<T>(w: seq<T>, header: seq<T>, body: seq<T>, tail: seq<T>)
    requires |header| == 2
    ensures w + [header[0]] + [header[1]] + body + tail == w + (header + body + tail)
  {
    assert header == [header[0]] + [header[1]];
  }

  lemma AppendHeader<T>(w: seq<T>, header: seq<T>, body: seq<T>)
    requires |header| == 2
    ensures w + [header[0]] + [header[1]] + body == w + (header + body)
  {
    assert header == [header[0]] + [header[1]];
  }

  lemma AppendAround<T>(w: seq<T>, first: T, body: seq<T>, last: T)
    ensures w + [first] + body + [last] == w + ([first] + body + [last])
  {
  }

  lemma AppendAfter<T>(w: seq<T>, first: T, body: seq<T>)
    ensures w + [first] + body == w + ([first] + body)
  {
  }

  /** One more part of a prefix adds that part. */
  lemma FlattenStep<T>(ss: seq<seq<T>>, a: nat)
    requires a < |ss|
    ensures Flatten(ss[..a + 1]) == Flatten(ss[..a]) + ss[a]
  {
    assert ss[..a + 1] == ss[..a] + [ss[a]];
    FlattenAppend(ss[..a], ss[a]);
  }

  /** A sequence is what comes before position k, the element at k, and what follows. */
  lemma CutAt<T>(s: seq<T>, k: nat)
    requires k < |s|
    ensures s == (s[..k] + [s[k]]) + s[k + 1..]
  {
  }

  /** Writing part a after the parts before it. */
  lemma FlattenExtend<T>(w: seq<T>, start: seq<T>, ss: seq<seq<T>>, a: nat, w': seq<T>)
    requires a < |ss| && w == start + Flatten(ss[..a]) && w' == w + ss[a]
    ensures w' == start + Flatten(ss[..a + 1])
  {
    FlattenStep(ss, a);
  }

  /** Flattening cut inside part a, after its first j elements. */
  lemma FlattenSplit<T>(ss: seq<seq<T>>, a: nat, j: nat)
    requires a < |ss| && j <= |ss[a]|
    ensures Flatten(ss) == (Flatten(ss[..a]) + ss[a][..j]) + (ss[a][j..] + Flatten(ss[a + 1..]))
  {
    var pre, mid, post := ss[..a], ss[a], ss[a + 1..];
    assert ss == pre + ([mid] + post);
    FlattenConcat(pre, [mid] + post);
    FlattenConcat([mid], post);
    FlattenSingle(mid);
    Regroup(Flatten(pre), mid, Flatten(post), j);
  }

  lemma FlattenSingle<T>(s: seq<T>)
    ensures Flatten([s]) == s
  {
    assert [s][..0] == [];
  }

  /** Moving a cut through the middle part. */
  lemma Regroup<T>(x: seq<T>, m: seq<T>, y: seq<T>, j: nat)
    requires j <= |m|
    ensures x + (m + y) == (x + m[..j]) + (m[j..] + y)
  {
    assert m == m[..j] + m[j..];
  }

  /** A property of every element of every part holds of every element of the flattening. */
  lemma {:induction false} FlattenEvery<T>(ss: seq<seq<T>>, P: T -> bool)
    requires forall a, j :: 0 <= a < |ss| && 0 <= j < |ss[a]| ==> P(ss[a][j])
    ensures forall k :: 0 <= k < |Flatten(ss)| ==> P(Flatten(ss)[k])
    decreases |ss|
  {
    if |ss| > 0 {
      var n := |ss| - 1;
      FlattenEvery(ss[..n], P);
      assert Flatten(ss) == Flatten(ss[..n]) + ss[n];
    }
  }

  /** Parts that all have length L flatten to |ss| * L elements. */
  lemma {:induction false} FlattenUniformLength<T>(ss: seq<seq<T>>, L: nat)
    requires forall a :: 0 <= a < |ss| ==> |ss[a]| == L
    ensures |Flatten(ss)| == |ss| * L
    decreases |ss|
  {
    if |ss| > 0 {
      var n := |ss| - 1;
      FlattenUniformLength(ss[..n], L);
      assert |ss| * L == n * L + L;
    }
  }

  /** With parts of length L, the j-th element of part a lands at a * L + j. */
  lemma {:induction false} FlattenUniformAt<T>(ss: seq<seq<T>>, L: nat, a: nat, j: nat)
    requires forall b :: 0 <= b < |ss| ==> |ss[b]| == L
    requires a < |ss| && j < L
    ensures a * L + j < |Flatten(ss)| && Flatten(ss)[a * L + j] == ss[a][j]
    decreases |ss|
  {
    var n := |ss| - 1;
    var front := ss[..n];
    FlattenUniformLength(front, L);
    FlattenUniformLength(ss, L);
    if a < n {
      FlattenUniformAt(front, L, a, j);
      assert front[a] == ss[a];
    } else {
      assert a * L == n * L;
    }
  }

  /** The set of values a sequence holds. */
  function Elements<T>(s: seq<T>): set<T>
  {
    set x | x in s
  }

  /** A sequence without repetitions holds as many values as it has positions. */
  lemma {:induction false} DistinctElements<T>(s: seq<T>)
    requires Distinct(s)
    ensures |Elements(s)| == |s|
    decreases |s|
  {
    if |s| > 0 {
      var n := |s| - 1;
      assert Distinct(s[..n]);
      DistinctElements(s[..n]);
      assert s == s[..n] + [s[n]];
      assert Elements(s) == Elements(s[..n]) + {s[n]};
      assert s[n] !in Elements(s[..n]);
    }
  }

  /** A proper subset by size leaves some element of the larger set out. */
  lemma SmallerSubset<T>(a: set<T>, b: set<T>)
    requires a <= b && |a| < |b|
    ensures exists x :: x in b && x !in a
  {
    assert b <= a ==> a == b;
  }
  /** Two strictly increasing sequences with the same values are the same sequence: sorting
      a set of integers has only one outcome. */
  lemma {:induction false} IncreasingUnique(a: seq<int>, b: seq<int>)
    requires StrictlyIncreasing(a) && StrictlyIncreasing(b)
    requires forall x :: x in a <==> x in b
    ensures a == b
    decreases |a|
  {
    assert |b| > 0 ==> b[0] in b;
    if |a| > 0 {
      HeadsEqual(a, b);
      forall x
        ensures x in a[1..] <==> x in b[1..]
      {
        TailMembers(a, x);
        TailMembers(b, x);
      }
      IncreasingUnique(a[1..], b[1..]);
      assert a == [a[0]] + a[1..] && b == [b[0]] + b[1..];
    }
  }

  lemma HeadsEqual(a: seq<int>, b: seq<int>)
    requires StrictlyIncreasing(a) && StrictlyIncreasing(b) && |a| > 0
    requires forall x :: x in a <==> x in b
    ensures |b| > 0 && a[0] == b[0]
  {
    assert a[0] in a;
    var i :| 0 <= i < |b| && b[i] == a[0];
    assert b[0] in b;
    var j :| 0 <= j < |a| && a[j] == b[0];
  }

  lemma TailMembers(a: seq<int>, x: int)
    requires StrictlyIncreasing(a) && |a| > 0
    ensures x in a[1..] <==> x in a && x != a[0]
  {
    assert a == [a[0]] + a[1..];
    if x in a[1..] {
      var k :| 0 <= k < |a[1..]| && a[1..][k] == x;
      assert a[k + 1] == x;
    }
  }
}
