/** `classificar_empilhadeiras` and `classificar_empilhadeiras_por_areas`: each forklift is
    labelled fast or slow, and separately given the number of areas (1, 2 or 3) it may work
    in. "Empilhadeira m" is machine m, counted from 1. */
module Forklifts {
  import opened Wrappers
  import opened Seqs
  import opened Dicts
  import opened Numbers
  import opened Rand

  /** 'rápida' and 'lenta'. */
  datatype Speed = Fast | Slow

  /** `[x] * k`: k copies of x, none when k is not positive. */
  function Repeat<T>(x: T, k: int): (r: seq<T>)
    ensures |r| == if k > 0 then k else 0
    ensures forall i :: 0 <= i < |r| ==> r[i] == x
  {
    if k <= 0 then [] else seq(k, _ => x)
  }

  lemma RepeatCount<T>(x: T, y: T, k: nat)
    ensures multiset(Repeat(x, k))[x] == k
    ensures y != x ==> multiset(Repeat(x, k))[y] == 0
  {
    if k > 0 {
      assert Repeat(x, k) == Repeat(x, k - 1) + [x];
      RepeatCount(x, y, k - 1);
    }
  }

  /** `int(round(n * (p / 100)))`: the number of fast forklifts. */
  function FastCount(n: nat, p: real): int
  {
    Round(n as real * (p / 100.0))
  }

  /** A percentage within [0, 100] gives between 0 and n fast forklifts. */
  lemma FastCountBounds(n: nat, p: real)
    requires 0.0 <= p <= 100.0
    ensures 0 <= FastCount(n, p) <= n
  {
    var x := n as real * (p / 100.0);
    MulNonNegative(n as real, p / 100.0);
    MulNonNegative(n as real, 1.0 - p / 100.0);
    assert n as real - x == n as real * (1.0 - p / 100.0);
  }

  /** The speed of each forklift, by position: a shuffle of the fast and slow labels. */
  function SpeedClasses(n: nat, p: real, draw: nat -> nat): (r: Result<seq<Speed>>)
    ensures r.Failure? <==> p < 0.0 || p > 100.0
    ensures r.Failure? ==> r.error == ProportionOutOfRange
    ensures r.Success? ==>
      && |r.value| == n
      && multiset(r.value)[Fast] == FastCount(n, p)
      && multiset(r.value)[Slow] == n - FastCount(n, p)
  {
    if p < 0.0 || p > 100.0 then Failure(ProportionOutOfRange)
    else
      var fast := FastCount(n, p);
      FastCountBounds(n, p);
      var labels := SpeedLabels(n, fast);
      Success(Shuffle(labels, draw))
  }

  /** `['rápida'] * fast + ['lenta'] * (n - fast)`. */
  function SpeedLabels(n: nat, fast: int): (r: seq<Speed>)
    requires 0 <= fast <= n
    ensures |r| == n && multiset(r)[Fast] == fast && multiset(r)[Slow] == n - fast
  {
    RepeatCount(Fast, Slow, fast);
    RepeatCount(Slow, Fast, n - fast);
    Repeat(Fast, fast) + Repeat(Slow, n - fast)
  }

  /** The class sizes: `max(1, int(p1 * n))` machines for one area, `max(1, int(p2 * n))` for
      two and the rest for three; a negative rest is taken from the two-area count. */
  function ClassCounts(n: nat, p1: real, p2: real): (int, int, int)
  {
    var one := Max(1, Trunc(p1 * n as real));
    var two := Max(1, Trunc(p2 * n as real));
    var three := n - one - two;
    if three < 0 then (one, two + three, 0) else (one, two, three)
  }

  /** The three class sizes add up to the number of machines, and none but the two-area
      count can be negative. */
  lemma ClassCountsSum(n: nat, p1: real, p2: real)
    ensures var c := ClassCounts(n, p1, p2);
      && c.0 + c.1 + c.2 == n
      && c.0 >= 1 && c.2 >= 0
      && (c.0 <= n ==> c.1 >= 0)
  {
  }

  /** Three machines with proportions 0.34 and 0.34 give one machine to each class. */
  lemma ClassCountsOfThree()
    ensures ClassCounts(3, 0.34, 0.34) == (1, 1, 1)
  {
    assert Trunc(0.34 * 3 as real) == 1;
  }

  /** `[x for x in s if x not in removed]`. */
  function Without(s: seq<int>, removed: seq<int>): seq<int>
  {
    if |s| == 0 then []
    else
      var rest := Without(s[..|s| - 1], removed);
      if s[|s| - 1] in removed then rest else rest + [s[|s| - 1]]
  }

  lemma {:induction false} WithoutMembers(s: seq<int>, removed: seq<int>, x: int)
    ensures x in Without(s, removed) <==> x in s && x !in removed
  {
    if |s| > 0 {
      var init := s[..|s| - 1];
      WithoutMembers(init, removed, x);
      assert s == init + [s[|s| - 1]];
    }
  }

  lemma {:induction false} WithoutDistinct(s: seq<int>, removed: seq<int>)
    requires Distinct(s)
    ensures Distinct(Without(s, removed))
  {
    if |s| > 0 {
      var init := s[..|s| - 1];
      WithoutDistinct(init, removed);
      WithoutMembers(init, removed, s[|s| - 1]);
      assert s[|s| - 1] !in init;
    }
  }

  /** Filtering a distinct population by a sample of it leaves exactly the unsampled part. */
  lemma WithoutMultiset(s: seq<int>, removed: seq<int>)
    requires Distinct(s) && multiset(removed) <= multiset(s)
    ensures multiset(removed) + multiset(Without(s, removed)) == multiset(s)
  {
    var w := Without(s, removed);
    WithoutDistinct(s, removed);
    DistinctSubmultiset(removed, s);
    forall x
      ensures (multiset(removed) + multiset(w))[x] == multiset(s)[x]
    {
      WithoutMembers(s, removed, x);
      DistinctCounts(s, x);
      DistinctCounts(w, x);
      DistinctCounts(removed, x);
      assert x in removed <==> multiset(removed)[x] > 0;
      assert x in w <==> multiset(w)[x] > 0;
      assert x in s <==> multiset(s)[x] > 0;
    }
  }

  /** `classificacao[f'Empilhadeira {m}'] = c` for every m of s, in order. */
  function Assign(d: Dict<int, int>, s: seq<int>, c: int): Dict<int, int>
  {
    if |s| == 0 then d else Put(Assign(d, s[..|s| - 1], c), s[|s| - 1], c)
  }

  function Pairs(s: seq<int>, c: int): (r: Dict<int, int>)
    ensures Keys(r) == s
    ensures Values(r) == Repeat(c, |s|)
  {
    seq(|s|, i requires 0 <= i < |s| => (s[i], c))
  }

  lemma KeysMembership(d: Dict<int, int>, k: int)
    ensures HasKey(d, k) <==> k in Keys(d)
  {
    if HasKey(d, k) {
      var i :| 0 <= i < |d| && d[i].0 == k;
      assert Keys(d)[i] == k;
    }
  }

  lemma DistinctPrefix(a: seq<int>, b: seq<int>)
    requires Distinct(a + b)
    ensures Distinct(a)
  {
    assert forall i :: 0 <= i < |a| ==> (a + b)[i] == a[i];
  }

  lemma KeysConcat(d: Dict<int, int>, e: Dict<int, int>)
    ensures Keys(d + e) == Keys(d) + Keys(e)
  {
  }

  /** The last element of a distinct sequence does not occur before it. */
  lemma DistinctLast(a: seq<int>, x: int)
    requires Distinct(a + [x])
    ensures x !in a
  {
    assert forall i :: 0 <= i < |a| ==> (a + [x])[i] == a[i];
    assert (a + [x])[|a|] == x;
  }

  /** Assigning fresh machines appends them. */
  lemma {:induction false} AssignFresh(d: Dict<int, int>, s: seq<int>, c: int)
    requires Distinct(Keys(d) + s)
    ensures Assign(d, s, c) == d + Pairs(s, c)
  {
    if |s| > 0 {
      var n := |s| - 1;
      var prefix := Keys(d) + s[..n];
      assert Keys(d) + s == prefix + [s[n]];
      DistinctPrefix(prefix, [s[n]]);
      DistinctLast(prefix, s[n]);
      AssignFresh(d, s[..n], c);
      var e := d + Pairs(s[..n], c);
      KeysConcat(d, Pairs(s[..n], c));
      KeysMembership(e, s[n]);
      assert !HasKey(e, s[n]);
      assert Assign(d, s, c) == Put(e, s[n], c);
      assert Pairs(s, c) == Pairs(s[..n], c) + [(s[n], c)];
    }
  }

  /** The area-count class of every machine: a sample for one area, then a sample of the rest
      for two, and the remaining machines for three. */
  function AreaClasses(n: nat, p1: real, p2: real, draw1: nat -> nat, draw2: nat -> nat): Result<Dict<int, int>>
  {
    var (one, two, _) := ClassCounts(n, p1, p2);
    var all := Range(1, n + 1);
    if one > |all| then Failure(SampleLargerThanPopulation)
    else
      var first := Sample(all, one, draw1);
      var rest := Without(all, first);
      if two < 0 || two > |rest| then Failure(SampleLargerThanPopulation)
      else
        var second := Sample(rest, two, draw2);
        var last := Without(rest, second);
        Success(Assign(Assign(Assign([], first, 1), second, 2), last, 3))
  }

  /** A sample of a distinct population, a sample of the rest and what then remains split
      the population. */
  lemma ThreeWaySplit(all: seq<int>, first: seq<int>, second: seq<int>)
    requires Distinct(all) && multiset(first) <= multiset(all)
    requires multiset(second) <= multiset(Without(all, first))
    ensures var last := Without(Without(all, first), second);
      && Distinct(first + second + last)
      && multiset(first + second + last) == multiset(all)
  {
    var rest := Without(all, first);
    WithoutMultiset(all, first);
    WithoutDistinct(all, first);
    WithoutMultiset(rest, second);
    var keys := first + second + Without(rest, second);
    assert multiset(keys) == multiset(all);
    DistinctSubmultiset(keys, all);
  }

  /** Assigning three disjoint groups appends them one after the other. */
  lemma AssignThree(first: seq<int>, second: seq<int>, last: seq<int>)
    requires Distinct(first + second + last)
    ensures Assign(Assign(Assign([], first, 1), second, 2), last, 3)
      == Pairs(first, 1) + Pairs(second, 2) + Pairs(last, 3)
  {
    DistinctPrefix(first + second, last);
    DistinctPrefix(first, second);
    var d0: Dict<int, int> := [];
    var p1, p2, p3 := Pairs(first, 1), Pairs(second, 2), Pairs(last, 3);
    assert Keys(d0) + first == first;
    AssignFresh(d0, first, 1);
    assert d0 + p1 == p1;
    var a1 := Assign(d0, first, 1);
    assert a1 == p1;
    KeysConcat(d0, p1);
    assert Keys(p1) + second == first + second;
    AssignFresh(p1, second, 2);
    var a2 := Assign(a1, second, 2);
    assert a2 == p1 + p2;
    KeysConcat(p1, p2);
    assert Keys(p1 + p2) + last == first + second + last;
    AssignFresh(p1 + p2, last, 3);
  }

  /** The three parts of the area classification, when it succeeds. */
  lemma AreaClassesParts(n: nat, p1: real, p2: real, draw1: nat -> nat, draw2: nat -> nat)
      returns (first: seq<int>, second: seq<int>, last: seq<int>)
    requires AreaClasses(n, p1, p2, draw1, draw2).Success?
    ensures AreaClasses(n, p1, p2, draw1, draw2).value == Pairs(first, 1) + Pairs(second, 2) + Pairs(last, 3)
    ensures Distinct(first + second + last)
    ensures multiset(first + second + last) == multiset(Range(1, n + 1))
    ensures |first| == ClassCounts(n, p1, p2).0 && |second| == ClassCounts(n, p1, p2).1
  {
    var (one, two, _) := ClassCounts(n, p1, p2);
    var all := Range(1, n + 1);
    first := Sample(all, one, draw1);
    var rest := Without(all, first);
    second := Sample(rest, two, draw2);
    last := Without(rest, second);
    ThreeWaySplit(all, first, second);
    AssignThree(first, second, last);
  }

  /** The second sample always fits in what the first leaves. */
  lemma AreaClassesFailure(n: nat, p1: real, p2: real, draw1: nat -> nat, draw2: nat -> nat)
    ensures AreaClasses(n, p1, p2, draw1, draw2).Failure? <==> ClassCounts(n, p1, p2).0 > n
  {
    var c := ClassCounts(n, p1, p2);
    ClassCountsSum(n, p1, p2);
    var all := Range(1, n + 1);
    if c.0 <= n {
      var first := Sample(all, c.0, draw1);
      WithoutMultiset(all, first);
      assert |multiset(first) + multiset(Without(all, first))| == |multiset(all)|;
    }
  }

  /** The class values of the three groups, in order. */
  lemma PairsValueCounts(first: seq<int>, second: seq<int>, last: seq<int>)
    ensures var v := multiset(Values(Pairs(first, 1) + Pairs(second, 2) + Pairs(last, 3)));
      v[1] == |first| && v[2] == |second| && v[3] == |last|
    ensures forall i :: 0 <= i < |Pairs(first, 1) + Pairs(second, 2) + Pairs(last, 3)| ==>
      1 <= (Pairs(first, 1) + Pairs(second, 2) + Pairs(last, 3))[i].1 <= 3
  {
    var a, b, c := Pairs(first, 1), Pairs(second, 2), Pairs(last, 3);
    ValuesConcat(a, b);
    ValuesConcat(a + b, c);
    RepeatCount(1, 2, |first|);
    RepeatCount(1, 3, |first|);
    RepeatCount(2, 1, |second|);
    RepeatCount(2, 3, |second|);
    RepeatCount(3, 1, |last|);
    RepeatCount(3, 2, |last|);
  }

  lemma ValuesConcat(a: Dict<int, int>, b: Dict<int, int>)
    ensures Values(a + b) == Values(a) + Values(b)
  {
  }

  /** Three groups that split 1..n give every machine exactly one entry. */
  lemma GroupsCover(first: seq<int>, second: seq<int>, last: seq<int>, n: nat)
    requires Distinct(first + second + last)
    requires multiset(first + second + last) == multiset(Range(1, n + 1))
    ensures var d := Pairs(first, 1) + Pairs(second, 2) + Pairs(last, 3);
      && DistinctKeys(d)
      && (forall m :: HasKey(d, m) <==> 1 <= m <= n)
  {
    var keys := first + second + last;
    var d := Pairs(first, 1) + Pairs(second, 2) + Pairs(last, 3);
    KeysConcat(Pairs(first, 1), Pairs(second, 2));
    KeysConcat(Pairs(first, 1) + Pairs(second, 2), Pairs(last, 3));
    assert Keys(d) == keys;
    forall m
      ensures HasKey(d, m) <==> 1 <= m <= n
    {
      RangeMembership(1, n + 1, m);
      assert m in keys <==> m in multiset(keys);
      KeysMembership(d, m);
    }
    assert forall i :: 0 <= i < |d| ==> d[i].0 == keys[i];
  }

  /** Every machine 1..n receives exactly one class, and `ClassCounts` give the size of each
      class; the classification fails only when one-area machines outnumber all machines. */
  lemma AreaClassesShape(n: nat, p1: real, p2: real, draw1: nat -> nat, draw2: nat -> nat)
    ensures var r := AreaClasses(n, p1, p2, draw1, draw2);
      && (r.Failure? <==> ClassCounts(n, p1, p2).0 > n)
      && (r.Success? ==>
        && DistinctKeys(r.value)
        && (forall m :: HasKey(r.value, m) <==> 1 <= m <= n)
        && (forall i :: 0 <= i < |r.value| ==> 1 <= r.value[i].1 <= 3)
        && multiset(Values(r.value))[1] == ClassCounts(n, p1, p2).0
        && multiset(Values(r.value))[2] == ClassCounts(n, p1, p2).1
        && multiset(Values(r.value))[3] == ClassCounts(n, p1, p2).2)
  {
    AreaClassesFailure(n, p1, p2, draw1, draw2);
    if AreaClasses(n, p1, p2, draw1, draw2).Success? {
      ClassCountsSum(n, p1, p2);
      var first, second, last := AreaClassesParts(n, p1, p2, draw1, draw2);
      assert |multiset(first + second + last)| == |multiset(Range(1, n + 1))|;
      PairsValueCounts(first, second, last);
      GroupsCover(first, second, last, n);
    }
  }

  /** `classificar_empilhadeiras_por_areas`. */
  method ClassifyByAreas(n: nat, p1: real, p2: real, draw1: nat -> nat, draw2: nat -> nat)
      returns (r: Result<Dict<int, int>>)
    ensures r == AreaClasses(n, p1, p2, draw1, draw2)
  {
    var (one, two, _) := ClassCounts(n, p1, p2);
    var available := Range(1, n + 1);
    if one > |available| {
      return Failure(SampleLargerThanPopulation);
    }
    var classes: Dict<int, int> := [];
    var first := Sample(available, one, draw1);
    classes := AssignLoop(classes, first, 1);
    available := Without(available, first);
    if two < 0 || two > |available| {
      return Failure(SampleLargerThanPopulation);
    }
    var second := Sample(available, two, draw2);
    classes := AssignLoop(classes, second, 2);
    available := Without(available, second);
    classes := AssignLoop(classes, available, 3);
    return Success(classes);
  }

  /** `for emp in s: classificacao[f'Empilhadeira {emp}'] = c`. */
  method AssignLoop(d: Dict<int, int>, s: seq<int>, c: int) returns (r: Dict<int, int>)
    ensures r == Assign(d, s, c)
  {
    r := d;
    var i := 0;
    while i < |s|
      invariant i <= |s|
      invariant r == Assign(d, s[..i], c)
    {
      assert s[..i + 1][..i] == s[..i];
      r := Put(r, s[i], c);
      i := i + 1;
    }
    assert s[..i] == s;
  }
}
