/** Python dictionaries whose iteration order is observable, as association lists.
    An entry is inserted at the end; assigning to a key already present replaces its value
    in place and keeps the key's position, as `d[k] = v` does in Python. */
module Dicts {
  import opened Wrappers

  type Dict<K, V> = seq<(K, V)>

  function Keys<K, V>(d: Dict<K, V>): (r: seq<K>)
    ensures |r| == |d|
    ensures forall i :: 0 <= i < |d| ==> r[i] == d[i].0
  {
    seq(|d|, i requires 0 <= i < |d| => d[i].0)
  }

  function Values<K, V>(d: Dict<K, V>): (r: seq<V>)
    ensures |r| == |d|
    ensures forall i :: 0 <= i < |d| ==> r[i] == d[i].1
  {
    seq(|d|, i requires 0 <= i < |d| => d[i].1)
  }

  /** The values of a prefix one entry longer end with that entry's value. */
  lemma ValuesSnoc<K, V>(d: Dict<K, V>, m: nat)
    requires 0 < m <= |d|
    ensures Values(d[..m]) == Values(d[..m - 1]) + [d[m - 1].1]
  {
    assert Values(d[..m])[..m - 1] == Values(d[..m - 1]);
  }

  function KeySet<K, V>(d: Dict<K, V>): set<K>
  {
    set i | 0 <= i < |d| :: d[i].0
  }

  predicate HasKey<K(==), V>(d: Dict<K, V>, k: K)
  {
    exists i :: 0 <= i < |d| && d[i].0 == k
  }

  /** No key occurs twice: the invariant every Python dict keeps. */
  predicate DistinctKeys<K(==), V>(d: Dict<K, V>)
  {
    forall i, j :: 0 <= i < j < |d| ==> d[i].0 != d[j].0
  }

  /** Position of the first entry with key k. */
  function IndexOf<K(==), V>(d: Dict<K, V>, k: K): (r: nat)
    requires HasKey(d, k)
    ensures r < |d| && d[r].0 == k
    ensures forall j :: 0 <= j < r ==> d[j].0 != k
  {
    if d[0].0 == k then 0
    else
      assert HasKey(d[1..], k) by {
        var i :| 0 <= i < |d| && d[i].0 == k;
        assert d[1..][i - 1].0 == k;
      }
      1 + IndexOf(d[1..], k)
  }

  /** `d.get(k)`: the value stored under k, or None. */
  function Lookup<K(==), V>(d: Dict<K, V>, k: K): (r: Option<V>)
    ensures r.None? <==> !HasKey(d, k)
    ensures r.Some? ==> exists i :: 0 <= i < |d| && d[i] == (k, r.value)
  {
    if HasKey(d, k) then Some(d[IndexOf(d, k)].1) else None
  }

  /** With distinct keys, the i-th entry is what a lookup of its key finds. */
  lemma LookupAt<K, V>(d: Dict<K, V>, i: nat)
    requires DistinctKeys(d)
    requires i < |d|
    ensures Lookup(d, d[i].0) == Some(d[i].1)
  {
    assert HasKey(d, d[i].0);
  }

  /** `d[k] = v`. */
  function Put<K(==), V>(d: Dict<K, V>, k: K, v: V): (r: Dict<K, V>)
    ensures HasKey(d, k) ==> |r| == |d|
    ensures !HasKey(d, k) ==> r == d + [(k, v)]
    ensures forall i :: 0 <= i < |d| ==> r[i].0 == d[i].0
  {
    if HasKey(d, k) then d[IndexOf(d, k) := (k, v)] else d + [(k, v)]
  }

  /** Entries under other keys keep their place and value. */
  lemma PutOther<K, V>(d: Dict<K, V>, k: K, v: V, i: nat)
    requires i < |d| && d[i].0 != k
    ensures Put(d, k, v)[i] == d[i]
  {
  }

  lemma PutKeySet<K, V>(d: Dict<K, V>, k: K, v: V)
    ensures KeySet(Put(d, k, v)) == KeySet(d) + {k}
  {
    var r := Put(d, k, v);
    if HasKey(d, k) {
      var i := IndexOf(d, k);
      forall x | x in KeySet(r) ensures x in KeySet(d) {
        var j :| 0 <= j < |r| && r[j].0 == x;
        assert d[j].0 == x;
      }
      forall x | x in KeySet(d) ensures x in KeySet(r) {
        var j :| 0 <= j < |d| && d[j].0 == x;
        assert r[j].0 == x;
      }
    } else {
      forall x | x in KeySet(r) ensures x in KeySet(d) + {k} {
        var j :| 0 <= j < |r| && r[j].0 == x;
        if j < |d| { assert d[j].0 == x; }
      }
      forall x | x in KeySet(d) ensures x in KeySet(r) {
        var j :| 0 <= j < |d| && d[j].0 == x;
        assert r[j].0 == x;
      }
      assert r[|d|].0 == k;
    }
  }

  lemma PutLookup<K, V>(d: Dict<K, V>, k: K, v: V, k': K)
    ensures Lookup(Put(d, k, v), k') == if k' == k then Some(v) else Lookup(d, k')
  {
    var r := Put(d, k, v);
    if HasKey(d, k) {
      var i := IndexOf(d, k);
      assert HasKey(r, k) by { assert r[i].0 == k; }
      assert IndexOf(r, k) == i;
      if k' != k {
        assert HasKey(r, k') <==> HasKey(d, k') by {
          if HasKey(r, k') { var j :| 0 <= j < |r| && r[j].0 == k'; assert d[j].0 == k'; }
          if HasKey(d, k') { var j :| 0 <= j < |d| && d[j].0 == k'; assert r[j].0 == k'; }
        }
        if HasKey(d, k') {
          var j := IndexOf(d, k');
          assert r[j].0 == k';
          assert IndexOf(r, k') == j;
        }
      }
    } else {
      assert HasKey(r, k) by { assert r[|d|].0 == k; }
      assert IndexOf(r, k) == |d|;
      if k' != k {
        assert HasKey(r, k') <==> HasKey(d, k') by {
          if HasKey(r, k') { var j :| 0 <= j < |r| && r[j].0 == k'; assert d[j].0 == k'; }
          if HasKey(d, k') { var j :| 0 <= j < |d| && d[j].0 == k'; assert r[j].0 == k'; }
        }
        if HasKey(d, k') {
          var j := IndexOf(d, k');
          assert r[j].0 == k';
          assert IndexOf(r, k') == j;
        }
      }
    }
  }

  lemma PutDistinct<K, V>(d: Dict<K, V>, k: K, v: V)
    requires DistinctKeys(d)
    ensures DistinctKeys(Put(d, k, v))
  {
  }

  /** A key is in the key set exactly when some entry carries it. */
  lemma KeySetMembership<K, V>(d: Dict<K, V>, k: K)
    ensures k in KeySet(d) <==> HasKey(d, k)
  {
    if HasKey(d, k) {
      var i :| 0 <= i < |d| && d[i].0 == k;
      assert d[i].0 in KeySet(d);
    }
  }
}
