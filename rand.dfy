/** The Python `random` calls that the core makes, with the random source made explicit.
    A draw stream `draw: nat -> nat` supplies one natural per elementary choice; a choice from a
    list of length n takes the element at index `draw(i) % n`, so every index is reachable and
    no draw can be out of range. Probabilities are not modelled. */
module Rand {
  import opened Seqs

  /** `random.choice(s)` made with the draw d. */
  function Choice<T>(s: seq<T>, d: nat): (r: T)
    requires |s| > 0
    ensures r in s
  {
    s[d % |s|]
  }

  function RemoveAt<T>(s: seq<T>, i: nat): (r: seq<T>)
    requires i < |s|
    ensures |r| == |s| - 1
    ensures multiset(r) + multiset{s[i]} == multiset(s)
  {
    assert s == s[..i] + [s[i]] + s[i + 1..];
    s[..i] + s[i + 1..]
  }

  /** Choosing k elements one at a time without replacement, starting at stream position `at`:
      the chosen elements in order, and what is left of the population. */
  function Draw<T>(pop: seq<T>, k: nat, draw: nat -> nat, at: nat): (r: (seq<T>, seq<T>))
    requires k <= |pop|
    ensures |r.0| == k
    ensures |r.1| == |pop| - k
    ensures multiset(r.0) + multiset(r.1) == multiset(pop)
    decreases k
  {
    if k == 0 then ([], pop)
    else
      var i := draw(at) % |pop|;
      var rest := Draw(RemoveAt(pop, i), k - 1, draw, at + 1);
      ([pop[i]] + rest.0, rest.1)
  }

  /** `random.sample(pop, k)`: k elements of pop, no position chosen twice. */
  function Sample<T>(pop: seq<T>, k: nat, draw: nat -> nat): (r: seq<T>)
    requires k <= |pop|
    ensures |r| == k
    ensures multiset(r) <= multiset(pop)
  {
    Draw(pop, k, draw, 0).0
  }

  /** `random.shuffle(s)`: the list, permuted. */
  function Shuffle<T>(s: seq<T>, draw: nat -> nat): (r: seq<T>)
    ensures multiset(r) == multiset(s)
  {
    var d := Draw(s, |s|, draw, 0);
    assert multiset(d.1) == multiset{};
    d.0
  }

  /** A sample from a population without repeated elements has no repeated elements. */
  lemma SampleDistinct<T>(pop: seq<T>, k: nat, draw: nat -> nat)
    requires k <= |pop|
    requires Distinct(pop)
    ensures Distinct(Sample(pop, k, draw))
  {
    DistinctSubmultiset(Sample(pop, k, draw), pop);
  }

  /** A sample without repetitions from a population without repetitions: k distinct
      members of the population. */
  lemma SampleShape<T>(pop: seq<T>, k: nat, draw: nat -> nat)
    requires k <= |pop|
    requires Distinct(pop)
    ensures Distinct(Sample(pop, k, draw))
    ensures |Elements(Sample(pop, k, draw))| == k
    ensures forall x :: x in Sample(pop, k, draw) ==> x in pop
  {
    var r := Sample(pop, k, draw);
    SampleDistinct(pop, k, draw);
    DistinctElements(r);
    assert forall x :: x in r ==> x in multiset(pop) by {
      assert forall x :: x in r ==> x in multiset(r);
    }
  }

  lemma ShuffleDistinct<T>(s: seq<T>, draw: nat -> nat)
    requires Distinct(s)
    ensures Distinct(Shuffle(s, draw))
  {
    DistinctSubmultiset(Shuffle(s, draw), s);
  }

  lemma ShuffleMembers<T>(s: seq<T>, draw: nat -> nat, x: T)
    ensures x in Shuffle(s, draw) <==> x in s
  {
    assert x in Shuffle(s, draw) <==> x in multiset(Shuffle(s, draw));
  }
}
