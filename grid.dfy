/** The integer grids the placement draws its coordinates from: numpy's `arange` with a
    positive step, counting upward, and with a negative step of the same size, counting
    downward. Every bound handled here is an integer, so the float rounding of numpy's length
    computation does not arise. */
module Grid {
  import opened Seqs
  import opened Numbers

  /** `np.arange(start, stop, step)`: start, start + step, ... while below stop. */
  function Arange(start: int, stop: int, step: int): (r: seq<int>)
    requires step >= 1
    ensures |r| == if stop > start then CeilDiv(stop - start, step) else 0
    ensures forall k :: 0 <= k < |r| ==> r[k] == start + k * step
  {
    seq(if stop > start then CeilDiv(stop - start, step) else 0, k => start + k * step)
  }

  /** `np.arange(start, stop, -step)`: start, start - step, ... while above stop. */
  function ArangeDown(start: int, stop: int, step: int): (r: seq<int>)
    requires step >= 1
    ensures |r| == if start > stop then CeilDiv(start - stop, step) else 0
    ensures forall k :: 0 <= k < |r| ==> r[k] == start - k * step
  {
    seq(if start > stop then CeilDiv(start - stop, step) else 0, k => start - k * step)
  }

  /** The upward grid holds exactly the values from start below stop that are a whole number
      of steps away from start. */
  lemma ArangeMembership(start: int, stop: int, step: int, v: int)
    requires step >= 1
    ensures v in Arange(start, stop, step) <==> start <= v < stop && (v - start) % step == 0
  {
    var r := Arange(start, stop, step);
    if v in r {
      var k :| 0 <= k < |r| && r[k] == v;
      StepsBelow(k, |r|, step, stop - start);
      DivModUnique(v - start, step, k, 0);
      MulNonNegativeInt(k, step);
    }
    if start <= v < stop && (v - start) % step == 0 {
      var k := (v - start) / step;
      StepsWithin(v - start, step, stop - start);
      assert r[k] == v;
    }
  }

  /** The downward grid holds exactly the values from start above stop that are a whole
      number of steps away from start. */
  lemma ArangeDownMembership(start: int, stop: int, step: int, v: int)
    requires step >= 1
    ensures v in ArangeDown(start, stop, step) <==> stop < v <= start && (start - v) % step == 0
  {
    var r := ArangeDown(start, stop, step);
    if v in r {
      var k :| 0 <= k < |r| && r[k] == v;
      StepsBelow(k, |r|, step, start - stop);
      DivModUnique(start - v, step, k, 0);
      MulNonNegativeInt(k, step);
    }
    if stop < v <= start && (start - v) % step == 0 {
      var k := (start - v) / step;
      StepsWithin(start - v, step, start - stop);
      assert r[k] == v;
    }
  }

  /** Position k of a grid of n = CeilDiv(span, step) values lies within the span. */
  lemma StepsBelow(k: nat, n: nat, step: int, span: int)
    requires step >= 1 && k < n
    requires span > 0 && n == CeilDiv(span, step)
    ensures k * step < span
  {
    MulMonotone(k, n - 1, step);
  }

  /** A whole number of steps below the span is a position of the grid. */
  lemma StepsWithin(offset: int, step: int, span: int)
    requires step >= 1 && 0 <= offset < span && offset % step == 0
    ensures 0 <= offset / step < CeilDiv(span, step)
    ensures offset == (offset / step) * step
  {
    var k := offset / step;
    assert offset == k * step;
    MulCancelLess(k, CeilDiv(span, step), step);
  }

  lemma ArangeIncreasing(start: int, stop: int, step: int)
    requires step >= 1
    ensures StrictlyIncreasing(Arange(start, stop, step))
  {
    var r := Arange(start, stop, step);
    forall i, j | 0 <= i < j < |r|
      ensures r[i] < r[j]
    {
      MulCancelLessInverse(i, j, step);
    }
  }

  lemma ArangeDownDistinct(start: int, stop: int, step: int)
    requires step >= 1
    ensures Distinct(ArangeDown(start, stop, step))
  {
    var r := ArangeDown(start, stop, step);
    forall i, j | 0 <= i < j < |r|
      ensures r[i] != r[j]
    {
      MulCancelLessInverse(i, j, step);
    }
  }

  lemma MulCancelLessInverse(i: int, j: int, step: int)
    requires i < j && step >= 1
    ensures i * step < j * step
  {
    MulAtLeast(j - i, step);
    assert j * step - i * step == (j - i) * step;
  }

  /** `[(x, y) for x in xs for y in ys]`. */
  function Product(xs: seq<int>, ys: seq<int>): (r: seq<(int, int)>)
    ensures |r| == |xs| * |ys|
    decreases |xs|
  {
    if |xs| == 0 then []
    else
      var rest := Product(xs[1..], ys);
      assert |rest| == (|xs| - 1) * |ys|;
      seq(|ys|, j requires 0 <= j < |ys| => (xs[0], ys[j])) + rest
  }

  lemma {:induction false} ProductMembership(xs: seq<int>, ys: seq<int>, p: (int, int))
    ensures p in Product(xs, ys) <==> p.0 in xs && p.1 in ys
    decreases |xs|
  {
    if |xs| > 0 {
      ProductMembership(xs[1..], ys, p);
      var row := seq(|ys|, j requires 0 <= j < |ys| => (xs[0], ys[j]));
      assert Product(xs, ys) == row + Product(xs[1..], ys);
      assert p in row <==> p.0 == xs[0] && p.1 in ys by {
        if p.0 == xs[0] && p.1 in ys {
          var j :| 0 <= j < |ys| && ys[j] == p.1;
          assert row[j] == p;
        }
      }
      assert xs == [xs[0]] + xs[1..];
    }
  }

  /** Distinct coordinates give distinct points. */
  lemma {:induction false} ProductDistinct(xs: seq<int>, ys: seq<int>)
    requires Distinct(xs) && Distinct(ys)
    ensures Distinct(Product(xs, ys))
    decreases |xs|
  {
    if |xs| > 0 {
      var rest := Product(xs[1..], ys);
      ProductDistinct(xs[1..], ys);
      var row := seq(|ys|, j requires 0 <= j < |ys| => (xs[0], ys[j]));
      var r := row + rest;
      assert Product(xs, ys) == r;
      forall i, j | 0 <= i < j < |r|
        ensures r[i] != r[j]
      {
        if i < |row| && j >= |row| {
          ProductMembership(xs[1..], ys, r[j]);
          assert r[j] in rest;
        } else if j < |row| {
          assert r[i] == (xs[0], ys[i]) && r[j] == (xs[0], ys[j]);
        } else {
          assert r[i] == rest[i - |row|] && r[j] == rest[j - |row|];
        }
      }
    }
  }
}
