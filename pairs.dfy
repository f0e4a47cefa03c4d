/** The combinations the setup and blocking tables are keyed by: every pair of operations
    taken from a sorted list, the earlier first, in the order of the two nested loops
    `for i in range(n): for j in range(i + 1, n)`; and a table filled over them. */
module Pairs {
  import opened Wrappers
  import opened Seqs
  import opened Dicts

  /** The pairs whose first element is ops[i]. */
  function RowPairs(ops: seq<int>, i: nat): (r: seq<(int, int)>)
    requires i < |ops|
    ensures |r| == |ops| - i - 1
    ensures forall k :: 0 <= k < |r| ==> r[k] == (ops[i], ops[i + 1 + k])
  {
    seq(|ops| - i - 1, k requires 0 <= k < |ops| - i - 1 => (ops[i], ops[i + 1 + k]))
  }

  /** The pairs whose first element is one of the first i. */
  function PairsUpTo(ops: seq<int>, i: nat): seq<(int, int)>
    requires i <= |ops|
  {
    if i == 0 then [] else PairsUpTo(ops, i - 1) + RowPairs(ops, i - 1)
  }

  /** `combinacoes`. */
  function PairsOf(ops: seq<int>): seq<(int, int)>
  {
    PairsUpTo(ops, |ops|)
  }

  /** The pair takes an element before position i and a later one. */
  predicate Spans(ops: seq<int>, i: nat, p: (int, int))
  {
    exists a, b :: 0 <= a < i && a < b < |ops| && ops[a] == p.0 && ops[b] == p.1
  }

  lemma {:induction false} PairsUpToMembership(ops: seq<int>, i: nat, p: (int, int))
    requires i <= |ops|
    ensures p in PairsUpTo(ops, i) <==> Spans(ops, i, p)
  {
    if i > 0 {
      PairsUpToMembership(ops, i - 1, p);
      var row := RowPairs(ops, i - 1);
      if p in row {
        var k :| 0 <= k < |row| && row[k] == p;
        assert ops[i - 1] == p.0 && ops[i + k] == p.1;
      }
      if Spans(ops, i, p) && !Spans(ops, i - 1, p) {
        var a, b :| 0 <= a < i && a < b < |ops| && ops[a] == p.0 && ops[b] == p.1;
        assert a == i - 1;
        assert row[b - i] == p;
      }
    }
  }

  /** Over a strictly increasing list, the pairs are exactly those of two listed elements,
      the smaller first. */
  lemma PairsOfMembership(ops: seq<int>, p: (int, int))
    requires StrictlyIncreasing(ops)
    ensures p in PairsOf(ops) <==> p.0 in ops && p.1 in ops && p.0 < p.1
  {
    PairsUpToMembership(ops, |ops|, p);
    if p.0 in ops && p.1 in ops && p.0 < p.1 {
      var a :| 0 <= a < |ops| && ops[a] == p.0;
      var b :| 0 <= b < |ops| && ops[b] == p.1;
      assert a < b;
    }
  }

  lemma {:induction false} PairsUpToCount(ops: seq<int>, i: nat)
    requires i <= |ops|
    ensures 2 * |PairsUpTo(ops, i)| == i * (2 * |ops| - i - 1)
  {
    if i > 0 {
      PairsUpToCount(ops, i - 1);
      assert i * (2 * |ops| - i - 1) == (i - 1) * (2 * |ops| - (i - 1) - 1) + 2 * (|ops| - i);
    }
  }

  /** n operations give n(n-1)/2 pairs. */
  lemma PairsOfCount(ops: seq<int>)
    ensures |PairsOf(ops)| == |ops| * (|ops| - 1) / 2
  {
    PairsUpToCount(ops, |ops|);
  }

  lemma {:induction false} PairsUpToDistinct(ops: seq<int>, i: nat)
    requires i <= |ops| && Distinct(ops)
    ensures Distinct(PairsUpTo(ops, i))
  {
    if i > 0 {
      PairsUpToDistinct(ops, i - 1);
      var front := PairsUpTo(ops, i - 1);
      var row := RowPairs(ops, i - 1);
      var r := front + row;
      forall x, y | 0 <= x < y < |r|
        ensures r[x] != r[y]
      {
        if x < |front| && y >= |front| {
          PairsUpToMembership(ops, i - 1, r[x]);
          var a, b :| 0 <= a < i - 1 && a < b < |ops| && ops[a] == r[x].0 && ops[b] == r[x].1;
          assert r[y].0 == ops[i - 1];
        } else if x >= |front| {
          assert r[x] == row[x - |front|] && r[y] == row[y - |front|];
        }
      }
    }
  }

  /** Distinct operations give distinct pairs. */
  lemma PairsOfDistinct(ops: seq<int>)
    requires Distinct(ops)
    ensures Distinct(PairsOf(ops))
  {
    PairsUpToDistinct(ops, |ops|);
  }

  /** The two nested loops that build `combinacoes`. */
  method Combinations(ops: seq<int>) returns (pairs: seq<(int, int)>)
    ensures pairs == PairsOf(ops)
  {
    pairs := [];
    var i := 0;
    while i < |ops|
      invariant i <= |ops|
      invariant pairs == PairsUpTo(ops, i)
    {
      var j := i + 1;
      while j < |ops|
        invariant i + 1 <= j <= |ops|
        invariant pairs == PairsUpTo(ops, i) + RowPairs(ops, i)[..j - i - 1]
      {
        assert RowPairs(ops, i)[..j - i] == RowPairs(ops, i)[..j - i - 1] + [(ops[i], ops[j])];
        pairs := pairs + [(ops[i], ops[j])];
        j := j + 1;
      }
      assert RowPairs(ops, i)[..j - i - 1] == RowPairs(ops, i);
      i := i + 1;
    }
  }

  /** `for p in pairs: table[p] = value(p)`. */
  function Tabled<V>(pairs: seq<(int, int)>, value: ((int, int)) -> V): Dict<(int, int), V>
  {
    if |pairs| == 0 then []
    else
      var p := pairs[|pairs| - 1];
      Put(Tabled(pairs[..|pairs| - 1], value), p, value(p))
  }

  /** The table holds the value of every listed pair and nothing else; over distinct pairs
      its keys are the pairs, in order. */
  lemma {:induction false} TabledShape<V>(pairs: seq<(int, int)>, value: ((int, int)) -> V)
    ensures DistinctKeys(Tabled(pairs, value))
    ensures forall p :: Lookup(Tabled(pairs, value), p) == if p in pairs then Some(value(p)) else None
    ensures Distinct(pairs) ==> Keys(Tabled(pairs, value)) == pairs
  {
    if |pairs| > 0 {
      var n := |pairs| - 1;
      TabledShape(pairs[..n], value);
      assert pairs == pairs[..n] + [pairs[n]];
      PutShape(pairs[..n], pairs[n], value, Tabled(pairs[..n], value), Tabled(pairs, value));
    }
  }

  /** Putting one more pair's value into a table of the pairs before it keeps the table's shape. */
  lemma PutShape<V>(front: seq<(int, int)>, p: (int, int), value: ((int, int)) -> V,
                    d: Dict<(int, int), V>, r: Dict<(int, int), V>)
    requires r == Put(d, p, value(p))
    requires DistinctKeys(d)
    requires forall x :: Lookup(d, x) == if x in front then Some(value(x)) else None
    requires Distinct(front) ==> Keys(d) == front
    ensures DistinctKeys(r)
    ensures forall x :: Lookup(r, x) == if x in front + [p] then Some(value(x)) else None
    ensures Distinct(front + [p]) ==> Keys(r) == front + [p]
  {
    PutDistinct(d, p, value(p));
    forall x
      ensures Lookup(r, x) == if x in front + [p] then Some(value(x)) else None
    {
      PutLookup(d, p, value(p), x);
    }
    if Distinct(front + [p]) {
      assert Distinct(front) by {
        forall i, j | 0 <= i < j < |front| ensures front[i] != front[j] {
          assert (front + [p])[i] == front[i] && (front + [p])[j] == front[j];
        }
      }
      forall i | 0 <= i < |front| ensures front[i] != p {
        assert (front + [p])[i] == front[i] && (front + [p])[|front|] == p;
      }
      assert Lookup(d, p).None?;
      assert Keys(r) == Keys(d) + [p];
    }
  }

  /** Tables filled with values that agree on every listed pair are equal. */
  lemma {:induction false} TabledAgrees<V>(pairs: seq<(int, int)>, v1: ((int, int)) -> V, v2: ((int, int)) -> V)
    requires forall i :: 0 <= i < |pairs| ==> v1(pairs[i]) == v2(pairs[i])
    ensures Tabled(pairs, v1) == Tabled(pairs, v2)
  {
    if |pairs| > 0 {
      var n := |pairs| - 1;
      assert forall i :: 0 <= i < n ==> pairs[..n][i] == pairs[i];
      TabledAgrees(pairs[..n], v1, v2);
    }
  }

  /** The inner loop of the setup and blocking tables: one machine's entries. */
  method FillTable<V>(pairs: seq<(int, int)>, value: ((int, int)) -> V) returns (table: Dict<(int, int), V>)
    ensures table == Tabled(pairs, value)
  {
    table := [];
    var k := 0;
    while k < |pairs|
      invariant k <= |pairs|
      invariant table == Tabled(pairs[..k], value)
    {
      assert pairs[..k + 1][..k] == pairs[..k];
      table := Put(table, pairs[k], value(pairs[k]));
      k := k + 1;
    }
    assert pairs[..k] == pairs;
  }
}
