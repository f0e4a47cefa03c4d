/** `associar_caminhoes_docas_aleatorio`: each truck is given an outbound dock from a pool
    that is used up before it is refilled.
    The association key "caminhão t" is position t - 1 of a sequence, as is the operation list
    of "Caminhão t"; lower-casing the second gives the first, so a truck is associated exactly
    when its position lies within the association. */
module Docks {
  import opened Wrappers
  import opened Seqs
  import opened Dicts
  import opened Rand
  import opened Areas
  import opened Numbers
  import opened Layout

  // ---------------------------------------------------------------------------------------
  // Trucks to docks

  /** The docks handed out to the first t trucks, and the pool left afterwards. Before each
      truck an empty pool is refilled with docks 1..nDocks; then the truck's draw picks one
      dock of the pool, which leaves it. The pool never holds a dock twice, so removing the
      chosen value removes the chosen position. */
  function DockRun(t: nat, nDocks: nat, draw: nat -> nat): (r: (seq<int>, seq<int>))
    requires nDocks > 0 || t == 0
    ensures |r.0| == t
    decreases t
  {
    if t == 0 then ([], Range(1, nDocks + 1))
    else DockStep(DockRun(t - 1, nDocks, draw), nDocks, draw(t - 1))
  }

  /** One truck: refill an empty pool, then hand out the dock at the drawn position. */
  function DockStep(state: (seq<int>, seq<int>), nDocks: nat, d: nat): (r: (seq<int>, seq<int>))
    requires nDocks > 0
    ensures |r.0| == |state.0| + 1
    ensures r.0[..|state.0|] == state.0
  {
    var pool := Refill(state.1, nDocks);
    var i := d % |pool|;
    (state.0 + [pool[i]], RemoveAt(pool, i))
  }

  /** The pool for the next truck: docks 1..nDocks when the previous round used them up. */
  function Refill(pool: seq<int>, nDocks: nat): (r: seq<int>)
    requires nDocks > 0
    ensures |r| > 0
  {
    if |pool| == 0 then Range(1, nDocks + 1) else pool
  }

  /** The dock of "caminhão t" at position t - 1. Choosing from an empty pool fails, which
      happens at the first truck when there is no dock. */
  function DockAssignment(nTrucks: nat, nDocks: nat, draw: nat -> nat): Result<seq<int>>
  {
    if nDocks == 0 && nTrucks > 0 then Failure(ChoiceFromEmpty)
    else Success(DockRun(nTrucks, nDocks, draw).0)
  }

  method AssignDocks(nTrucks: nat, nDocks: nat, draw: nat -> nat) returns (r: Result<seq<int>>)
    ensures r == DockAssignment(nTrucks, nDocks, draw)
  {
    var docks := Range(1, nDocks + 1);
    var assoc: seq<int> := [];
    for truck := 1 to nTrucks + 1
      invariant nDocks > 0 || truck == 1
      invariant (assoc, docks) == DockRun(truck - 1, nDocks, draw)
    {
      if |docks| == 0 {
        docks := Range(1, nDocks + 1);
      }
      if |docks| == 0 {
        return Failure(ChoiceFromEmpty);
      }
      var i := draw(truck - 1) % |docks|;
      var dock := docks[i];
      docks := RemoveAt(docks, i);
      assoc := assoc + [dock];
    }
    r := Success(assoc);
  }

  /** Where the current round of the pool began, for the first t trucks: the last multiple
      of nDocks below t. */
  function RoundStart(t: nat, nDocks: nat): (r: nat)
    requires nDocks > 0
    ensures r <= t
  {
    if t == 0 then 0
    else
      DivModUnique(t - 1, nDocks, (t - 1) / nDocks, (t - 1) % nDocks);
      MulNonNegativeInt((t - 1) / nDocks, nDocks);
      ((t - 1) / nDocks) * nDocks
  }

  /** The round moves on exactly when the pool has just been used up. */
  lemma RoundStartStep(t: nat, nDocks: nat)
    requires nDocks > 0
    requires t - RoundStart(t, nDocks) <= nDocks
    ensures t - RoundStart(t, nDocks) == nDocks ==> RoundStart(t + 1, nDocks) == t
    ensures t - RoundStart(t, nDocks) < nDocks ==> RoundStart(t + 1, nDocks) == RoundStart(t, nDocks)
  {
    if t > 0 {
      var q := (t - 1) / nDocks;
      var s := q * nDocks;
      assert t - 1 == s + (t - 1) % nDocks;
      if t - s == nDocks {
        assert t == (q + 1) * nDocks + 0;
        DivModUnique(t, nDocks, q + 1, 0);
      } else {
        DivModUnique(t, nDocks, q, t - s);
      }
    } else {
      DivModUnique(0, nDocks, 0, 0);
    }
  }

  /** What holds of the docks and the pool after every truck: the pool together with the
      docks handed out since the round began is exactly docks 1..nDocks, every dock handed out
      lies in 1..nDocks, and no block of nDocks consecutive trucks shares a dock. */
  predicate PoolInvariant(state: (seq<int>, seq<int>), nDocks: nat)
    requires nDocks > 0
  {
    var s := RoundStart(|state.0|, nDocks);
    && |state.0| - s <= nDocks
    && |state.1| == nDocks - (|state.0| - s)
    && multiset(state.1) + multiset(state.0[s..]) == multiset(Range(1, nDocks + 1))
    && DocksInRange(state.0, nDocks)
    && DistinctInBlocks(state.0, nDocks)
  }

  lemma InvariantStep(state: (seq<int>, seq<int>), nDocks: nat, d: nat)
    requires nDocks > 0 && PoolInvariant(state, nDocks)
    ensures PoolInvariant(DockStep(state, nDocks, d), nDocks)
  {
    var j := |state.0|;
    var s := RoundStart(j, nDocks);
    RoundStartStep(j, nDocks);
    DockStepInvariant(state, nDocks, d, s);
    NewDockFresh(state, nDocks, d, s);
    ShapeStep(state, nDocks, d, RoundStart(j + 1, nDocks));
  }

  lemma {:induction false} DockRunInvariant(t: nat, nDocks: nat, draw: nat -> nat)
    requires nDocks > 0
    ensures PoolInvariant(DockRun(t, nDocks, draw), nDocks)
    decreases t
  {
    if t > 0 {
      DockRunInvariant(t - 1, nDocks, draw);
      InvariantStep(DockRun(t - 1, nDocks, draw), nDocks, draw(t - 1));
    }
  }

  lemma DockStepInvariant(state: (seq<int>, seq<int>), nDocks: nat, d: nat, s: nat)
    requires nDocks > 0 && s <= |state.0|
    requires |state.0| - s <= nDocks && |state.1| == nDocks - (|state.0| - s)
    requires multiset(state.1) + multiset(state.0[s..]) == multiset(Range(1, nDocks + 1))
    ensures var next := DockStep(state, nDocks, d);
      var s' := if |state.1| == 0 then |state.0| else s;
      && |next.1| == nDocks - (|next.0| - s')
      && multiset(next.1) + multiset(next.0[s'..]) == multiset(Range(1, nDocks + 1))
  {
    var pool := Refill(state.1, nDocks);
    var i := d % |pool|;
    var next := DockStep(state, nDocks, d);
    assert next.0 == state.0 + [pool[i]];
    if |state.1| == 0 {
      assert next.0[|state.0|..] == [pool[i]];
    } else {
      assert next.0[s..] == state.0[s..] + [pool[i]];
    }
  }


  /** Nothing handed out since the round began can be handed out again before the pool is
      refilled: the dock given to the next truck lies in 1..nDocks and not in the round. */
  lemma NewDockFresh(state: (seq<int>, seq<int>), nDocks: nat, d: nat, s: nat)
    requires nDocks > 0 && s <= |state.0|
    requires |state.0| - s <= nDocks && |state.1| == nDocks - (|state.0| - s)
    requires multiset(state.1) + multiset(state.0[s..]) == multiset(Range(1, nDocks + 1))
    ensures var next := DockStep(state, nDocks, d);
      var s' := if |state.1| == 0 then |state.0| else s;
      && 1 <= next.0[|state.0|] <= nDocks
      && next.0[|state.0|] !in state.0[s'..]
  {
    var pool := Refill(state.1, nDocks);
    var x := pool[d % |pool|];
    var all := Range(1, nDocks + 1);
    assert DockStep(state, nDocks, d).0[|state.0|] == x;
    assert x in multiset(all) by {
      if |state.1| > 0 {
        assert x in multiset(state.1);
      }
    }
    RangeMembership(1, nDocks + 1, x);
    if |state.1| > 0 && x in state.0[s..] {
      assert x in multiset(state.1) && x in multiset(state.0[s..]);
      assert multiset(all)[x] >= 2;
      IncreasingIsDistinct(all);
      DistinctCounts(all, x);
    }
  }

  /** Every dock handed out lies in 1..nDocks. */
  predicate DocksInRange(assoc: seq<int>, nDocks: nat)
  {
    forall t :: 0 <= t < |assoc| ==> 1 <= assoc[t] <= nDocks
  }

  /** Within each block of nDocks consecutive trucks no dock is handed out twice. */
  predicate DistinctInBlocks(assoc: seq<int>, nDocks: nat)
    requires nDocks > 0
  {
    forall t, u :: 0 <= t < u < |assoc| && t / nDocks == u / nDocks ==> assoc[t] != assoc[u]
  }

  /** A fresh dock keeps both properties when the round began at the start of the new
      truck's block. */
  lemma ShapeStep(state: (seq<int>, seq<int>), nDocks: nat, d: nat, s: nat)
    requires nDocks > 0
    requires DocksInRange(state.0, nDocks) && DistinctInBlocks(state.0, nDocks)
    requires s == (|state.0| / nDocks) * nDocks && s <= |state.0|
    requires 1 <= DockStep(state, nDocks, d).0[|state.0|] <= nDocks
    requires DockStep(state, nDocks, d).0[|state.0|] !in state.0[s..]
    ensures DocksInRange(DockStep(state, nDocks, d).0, nDocks)
    ensures DistinctInBlocks(DockStep(state, nDocks, d).0, nDocks)
  {
    var next := DockStep(state, nDocks, d).0;
    var j := |state.0|;
    assert next == state.0 + [next[j]] by {
      assert next[..j] == state.0;
    }
    forall t, u | 0 <= t < u < |next| && t / nDocks == u / nDocks
      ensures next[t] != next[u]
    {
      if u == j {
        assert t == (t / nDocks) * nDocks + t % nDocks;
        assert state.0[t] == state.0[s..][t - s];
      }
    }
  }

  /** Every truck gets a dock among 1..nDocks, and within each block of nDocks consecutive
      trucks (trucks 1..nDocks, nDocks+1..2 nDocks, ...) no dock is handed out twice. */
  lemma DockAssignmentShape(nTrucks: nat, nDocks: nat, draw: nat -> nat)
    ensures DockAssignment(nTrucks, nDocks, draw).Failure? <==> nDocks == 0 && nTrucks > 0
    ensures DockAssignment(nTrucks, nDocks, draw).Success? ==>
      var assoc := DockAssignment(nTrucks, nDocks, draw).value;
      && |assoc| == nTrucks
      && (forall t :: 0 <= t < nTrucks ==> 1 <= assoc[t] <= nDocks)
      && (forall t, u :: 0 <= t < u < nTrucks && t / nDocks == u / nDocks ==> assoc[t] != assoc[u])
  {
    if nDocks > 0 {
      DockRunInvariant(nTrucks, nDocks, draw);
    }
  }
}
