/** `calcular_bloqueio`: for every forklift, the blocking time of each pair of operations
    placed outside the Picking area, the smaller operation first. There is no zero rule:
    every pair costs the rounded midpoint of [t_min, t_max] in deterministic mode, and
    otherwise the rounding of a draw from that range. Keys and table positions are as in
    the setup tables. */
module BlockingTime {
  import opened Wrappers
  import opened Seqs
  import opened Dicts
  import opened Numbers
  import opened Areas
  import opened Sorting
  import opened Pairs
  import opened SetupTime

  /** The operation list before deduplication: the keys of each area other than Picking,
      area after area, as `operacoes.extend(ops.keys())` leaves it. */
  function PlacedOps(points: AreaPoints): seq<int>
  {
    if |points| == 0 then []
    else
      var (area, ops) := points[|points| - 1];
      PlacedOps(points[..|points| - 1]) + if area != Picking then Keys(ops) else []
  }

  lemma {:induction false} PlacedOpsMembership(points: AreaPoints, op: int)
    ensures op in PlacedOps(points) <==> Placed(points, op)
  {
    if |points| > 0 {
      var n := |points| - 1;
      PlacedOpsMembership(points[..n], op);
      assert forall i :: 0 <= i < n ==> points[..n][i] == points[i];
      KeysMembership(points[n].1, op);
    }
  }

  /** The loop that collects the operations. */
  method CollectOps(points: AreaPoints) returns (ops: seq<int>)
    ensures ops == PlacedOps(points)
  {
    ops := [];
    var i := 0;
    while i < |points|
      invariant i <= |points|
      invariant ops == PlacedOps(points[..i])
    {
      assert points[..i + 1][..i] == points[..i];
      var (area, keys) := points[i];
      if area != Picking {
        ops := ops + Keys(keys);
      }
      i := i + 1;
    }
    assert points[..i] == points;
  }

  /** `set(s)`, listed by first occurrence; it is sorted straight away, and sorting distinct
      integers has one outcome, so the order a Python set iterates in does not matter. */
  function Dedup(s: seq<int>): (r: seq<int>)
    ensures Distinct(r)
    ensures forall x :: x in r <==> x in s
  {
    if |s| == 0 then []
    else
      var front := Dedup(s[..|s| - 1]);
      assert s == s[..|s| - 1] + [s[|s| - 1]];
      if s[|s| - 1] in front then front else front + [s[|s| - 1]]
  }

  /** `sorted(set(operacoes))`. */
  function BlockingOps(points: AreaPoints): seq<int>
  {
    SortBy(Dedup(PlacedOps(points)), x => x)
  }

  /** The operations are those placed outside Picking, in increasing order: the very list the
      setup tables are built over. */
  lemma BlockingOpsShape(points: AreaPoints)
    ensures StrictlyIncreasing(BlockingOps(points))
    ensures forall op :: op in BlockingOps(points) <==> Placed(points, op)
    ensures BlockingOps(points) == SetupOps(points)
  {
    var ops := BlockingOps(points);
    SortByDistinct(Dedup(PlacedOps(points)), x => x);
    SortedDistinctIncreasing(ops);
    forall op
      ensures op in ops <==> Placed(points, op)
    {
      SortByMembers(Dedup(PlacedOps(points)), x => x, op);
      PlacedOpsMembership(points, op);
    }
    SetupOpsShape(points);
    IncreasingUnique(ops, SetupOps(points));
  }

  function BlockingValues(deterministic: bool, tMin: real, tMax: real, factors: PairFactors, m: int)
    : ((int, int)) -> int
  {
    (p: (int, int)) => Round(MidOrUniform(deterministic, tMin, tMax, factors(m, p.0, p.1)))
  }

  /** The table of forklift m. */
  function BlockingTable(points: AreaPoints, deterministic: bool, tMin: real, tMax: real,
                         factors: PairFactors, m: int): PairTable
  {
    Tabled(PairsOf(BlockingOps(points)), BlockingValues(deterministic, tMin, tMax, factors, m))
  }

  /** `calcular_bloqueio`. */
  method BlockingTimes(points: AreaPoints, deterministic: bool, tMin: real, tMax: real,
                       machines: int, factors: PairFactors) returns (tables: seq<PairTable>)
    ensures |tables| == if machines > 0 then machines else 0
    ensures forall i :: 0 <= i < |tables| ==>
      tables[i] == BlockingTable(points, deterministic, tMin, tMax, factors, i + 1)
  {
    var placed := CollectOps(points);
    var ops := SortBy(Dedup(placed), x => x);
    var combos := Combinations(ops);
    tables := [];
    var m := 1;
    while m <= machines
      invariant 1 <= m && |tables| == m - 1
      invariant machines > 0 ==> m <= machines + 1
      invariant machines <= 0 ==> m == 1
      invariant forall i :: 0 <= i < |tables| ==>
        tables[i] == BlockingTable(points, deterministic, tMin, tMax, factors, i + 1)
    {
      var table := FillTable(combos, BlockingValues(deterministic, tMin, tMax, factors, m));
      TablesStep(tables, table, points, deterministic, tMin, tMax, factors, combos, m);
      tables := tables + [table];
      m := m + 1;
    }
  }

  /** One more forklift's table, after the tables of the forklifts before it. */
  lemma TablesStep(tables: seq<PairTable>, table: PairTable, points: AreaPoints, deterministic: bool,
                   tMin: real, tMax: real, factors: PairFactors, combos: seq<(int, int)>, m: int)
    requires combos == PairsOf(BlockingOps(points))
    requires table == Tabled(combos, BlockingValues(deterministic, tMin, tMax, factors, m))
    requires forall i :: 0 <= i < |tables| ==>
      tables[i] == BlockingTable(points, deterministic, tMin, tMax, factors, i + 1)
    requires |tables| == m - 1
    ensures var r := tables + [table];
      forall i :: 0 <= i < |r| ==> r[i] == BlockingTable(points, deterministic, tMin, tMax, factors, i + 1)
  {
  }

  /** Every table is keyed by exactly the pairs of placed operations, the smaller first: the
      keys of the setup tables, in the same order. */
  lemma BlockingKeys(points: AreaPoints, deterministic: bool, tMin: real, tMax: real,
                     factors: PairFactors, m: int)
    ensures var t := BlockingTable(points, deterministic, tMin, tMax, factors, m);
      && DistinctKeys(t)
      && Keys(t) == Keys(SetupTable(points, deterministic, tMin, tMax, factors, m))
      && forall p :: HasKey(t, p) <==> Placed(points, p.0) && Placed(points, p.1) && p.0 < p.1
  {
    var ops := BlockingOps(points);
    var value := BlockingValues(deterministic, tMin, tMax, factors, m);
    BlockingOpsShape(points);
    IncreasingIsDistinct(ops);
    PairsOfDistinct(ops);
    TabledShape(PairsOf(ops), value);
    SetupKeys(points, deterministic, tMin, tMax, factors, m);
    forall p
      ensures HasKey(Tabled(PairsOf(ops), value), p) <==> Placed(points, p.0) && Placed(points, p.1) && p.0 < p.1
    {
      PairsOfMembership(ops, p);
    }
  }

  /** Every listed pair costs the rounded value drawn for it, which lies between the roundings
      of the two bounds and in deterministic mode is the rounded midpoint. */
  lemma BlockingEntry(points: AreaPoints, deterministic: bool, tMin: real, tMax: real,
                      factors: PairFactors, m: int, p: (int, int))
    requires Placed(points, p.0) && Placed(points, p.1) && p.0 < p.1
    ensures var v := Lookup(BlockingTable(points, deterministic, tMin, tMax, factors, m), p);
      && v.Some?
      && v.value == Round(MidOrUniform(deterministic, tMin, tMax, factors(m, p.0, p.1)))
      && (deterministic ==> v.value == Round((tMin + tMax) / 2.0))
      && (tMin <= tMax ==> Round(tMin) <= v.value <= Round(tMax))
  {
    var ops := BlockingOps(points);
    BlockingOpsShape(points);
    PairsOfMembership(ops, p);
    TabledShape(PairsOf(ops), BlockingValues(deterministic, tMin, tMax, factors, m));
    var x := MidOrUniform(deterministic, tMin, tMax, factors(m, p.0, p.1));
    if tMin <= tMax {
      RoundMonotone(tMin, x);
      RoundMonotone(x, tMax);
    }
  }

  /** In deterministic mode every forklift gets the same table. */
  lemma BlockingDeterministic(points: AreaPoints, tMin: real, tMax: real, factors: PairFactors, m1: int, m2: int)
    ensures BlockingTable(points, true, tMin, tMax, factors, m1) == BlockingTable(points, true, tMin, tMax, factors, m2)
  {
    forall p: (int, int)
      ensures BlockingValues(true, tMin, tMax, factors, m1)(p) == BlockingValues(true, tMin, tMax, factors, m2)(p)
    {
      MidOrUniformDeterministic(tMin, tMax, factors(m1, p.0, p.1), factors(m2, p.0, p.1));
    }
    TabledAgrees(PairsOf(BlockingOps(points)), BlockingValues(true, tMin, tMax, factors, m1),
                 BlockingValues(true, tMin, tMax, factors, m2));
  }
}
