/** Python's `sorted` with a key: an insertion sort by an integer key that keeps elements
    with the same key in their original order. */
module Sorting {
  import opened Wrappers
  import opened Seqs
  import opened Dicts

  predicate SortedBy<T>(s: seq<T>, key: T -> int)
  {
    forall i, j :: 0 <= i < j < |s| ==> key(s[i]) <= key(s[j])
  }

  /** Puts x before the first element whose key is not below its own. */
  function InsertBy<T>(x: T, s: seq<T>, key: T -> int): (r: seq<T>)
    ensures multiset(r) == multiset(s) + multiset{x}
  {
    if |s| == 0 || key(x) <= key(s[0]) then [x] + s
    else
      assert s == [s[0]] + s[1..];
      [s[0]] + InsertBy(x, s[1..], key)
  }

  lemma {:induction false} InsertBySorted<T>(x: T, s: seq<T>, key: T -> int)
    requires SortedBy(s, key)
    ensures SortedBy(InsertBy(x, s, key), key)
  {
    if |s| > 0 && key(x) > key(s[0]) {
      var rest := InsertBy(x, s[1..], key);
      InsertBySorted(x, s[1..], key);
      forall j | 0 <= j < |rest|
        ensures key(s[0]) <= key(rest[j])
      {
        assert rest[j] in multiset(rest);
        if rest[j] != x {
          assert rest[j] in multiset(s[1..]);
          var k :| 0 <= k < |s[1..]| && s[1..][k] == rest[j];
          assert s[k + 1] == rest[j];
        }
      }
      assert InsertBy(x, s, key) == [s[0]] + rest;
    }
  }

  /** `sorted(s, key=key)`: a permutation of s in non-decreasing key order. */
  function SortBy<T>(s: seq<T>, key: T -> int): (r: seq<T>)
    ensures multiset(r) == multiset(s)
    ensures SortedBy(r, key)
  {
    if |s| == 0 then []
    else
      assert s == [s[0]] + s[1..];
      InsertBySorted(s[0], SortBy(s[1..], key), key);
      InsertBy(s[0], SortBy(s[1..], key), key)
  }

  lemma SortByMembers<T>(s: seq<T>, key: T -> int, x: T)
    ensures x in SortBy(s, key) <==> x in s
  {
    assert x in SortBy(s, key) <==> x in multiset(SortBy(s, key));
  }

  lemma SortByDistinct<T>(s: seq<T>, key: T -> int)
    requires Distinct(s)
    ensures Distinct(SortBy(s, key))
  {
    DistinctSubmultiset(SortBy(s, key), s);
  }

  /** Sorting distinct integers by their value leaves them strictly increasing. */
  lemma SortedDistinctIncreasing(s: seq<int>)
    requires SortedBy(s, x => x) && Distinct(s)
    ensures StrictlyIncreasing(s)
  {
    forall i, j | 0 <= i < j < |s|
      ensures s[i] < s[j]
    {
      assert (x => x)(s[i]) <= (x => x)(s[j]);
    }
  }

  /** The rebuilt map holds the first i keys, each with its value in `source` passed
      through f. */
  ghost predicate RebuiltUpTo<K(!new), V, W>(ordered: Dict<K, W>, source: Dict<K, V>, keys: seq<K>, i: nat, f: V -> W)
    requires i <= |keys|
  {
    && Keys(ordered) == keys[..i]
    && DistinctKeys(ordered)
    && (forall k :: Lookup(ordered, k) ==
         if k in keys[..i] && HasKey(source, k) then Some(f(Lookup(source, k).value)) else None)
  }

  lemma RebuildStep<K(!new), V, W>(ordered: Dict<K, W>, source: Dict<K, V>, keys: seq<K>, i: nat, f: V -> W)
    requires i < |keys| && Distinct(keys) && HasKey(source, keys[i])
    requires RebuiltUpTo(ordered, source, keys, i, f)
    ensures RebuiltUpTo(Put(ordered, keys[i], f(Lookup(source, keys[i]).value)), source, keys, i + 1, f)
  {
    var k := keys[i];
    var v := f(Lookup(source, k).value);
    assert keys[..i + 1] == keys[..i] + [k];
    assert k !in keys[..i];
    assert !HasKey(ordered, k) by {
      assert forall j :: 0 <= j < |ordered| ==> ordered[j].0 == Keys(ordered)[j];
    }
    forall l
      ensures Lookup(Put(ordered, k, v), l) ==
        if l in keys[..i + 1] && HasKey(source, l) then Some(f(Lookup(source, l).value)) else None
    {
      PutLookup(ordered, k, v, l);
    }
    PutDistinct(ordered, k, v);
    assert Keys(Put(ordered, k, v)) == keys[..i + 1];
  }

  /** `for k in keys: ordered[k] = f(source[k])`, for distinct keys all present in source. */
  method Rebuild<K(==,!new), V, W>(source: Dict<K, V>, keys: seq<K>, f: V -> W) returns (ordered: Dict<K, W>)
    requires Distinct(keys)
    requires forall i :: 0 <= i < |keys| ==> HasKey(source, keys[i])
    ensures Keys(ordered) == keys
    ensures DistinctKeys(ordered)
    ensures forall k :: Lookup(ordered, k) == if k in keys then Some(f(Lookup(source, k).value)) else None
  {
    ordered := [];
    var i := 0;
    while i < |keys|
      invariant i <= |keys|
      invariant RebuiltUpTo(ordered, source, keys, i, f)
    {
      RebuildStep(ordered, source, keys, i, f);
      ordered := Put(ordered, keys[i], f(Lookup(source, keys[i]).value));
      i := i + 1;
    }
    assert keys[..i] == keys;
    forall k | k in keys
      ensures HasKey(source, k)
    {
      var j :| 0 <= j < |keys| && keys[j] == k;
    }
  }

  lemma SortedKeyMembers<K, V>(d: Dict<K, V>, key: K -> int, k: K)
    ensures k in SortBy(Keys(d), key) <==> HasKey(d, k)
  {
    SortByMembers(Keys(d), key, k);
    if HasKey(d, k) {
      var j := IndexOf(d, k);
      assert Keys(d)[j] == k;
    }
  }

  /** Sorting the keys of a map gives distinct keys, each present in the map. */
  lemma SortedKeys<K, V>(d: Dict<K, V>, key: K -> int)
    requires DistinctKeys(d)
    ensures Distinct(SortBy(Keys(d), key))
    ensures forall k :: k in SortBy(Keys(d), key) <==> HasKey(d, k)
  {
    assert Distinct(Keys(d));
    SortByDistinct(Keys(d), key);
    forall k
      ensures k in SortBy(Keys(d), key) <==> HasKey(d, k)
    {
      SortedKeyMembers(d, key, k);
    }
  }
}
