/** `calcular_setup`: for every forklift, the setup time between each pair of operations
    placed outside the Picking area, the smaller operation first. The pairs (1, 2), (3, 4)
    and (5, 6) and any pair of operations filed under the same area cost nothing; any other
    pair costs the rounded midpoint of [t_min, t_max] in deterministic mode, and otherwise
    the rounding of a draw from that range. The table key "a,b" is the pair (a, b); the
    table of "Empilhadeira m" sits at position m - 1. */
module SetupTime {
  import opened Wrappers
  import opened Seqs
  import opened Dicts
  import opened Numbers
  import opened Areas
  import opened Sorting
  import opened Pairs

  /** The `random.uniform` fraction of forklift m for the pair (a, b), as `factors(m, a, b)`. */
  type PairFactors = (int, int, int) -> Unit

  /** Setup tables, one per forklift. */
  type PairTable = Dict<(int, int), int>

  /** Some area other than Picking lists op. */
  predicate Placed(points: AreaPoints, op: int)
  {
    exists i :: 0 <= i < |points| && points[i].0 != Picking && HasKey(points[i].1, op)
  }

  /** The last area other than Picking that lists op. */
  function LastArea(points: AreaPoints, op: int): Option<Area>
  {
    if |points| == 0 then None
    else
      var (area, ops) := points[|points| - 1];
      if area != Picking && HasKey(ops, op) then Some(area) else LastArea(points[..|points| - 1], op)
  }

  lemma {:induction false} LastAreaSome(points: AreaPoints, op: int)
    ensures LastArea(points, op).Some? <==> Placed(points, op)
  {
    if |points| > 0 {
      var n := |points| - 1;
      LastAreaSome(points[..n], op);
      assert forall i :: 0 <= i < n ==> points[..n][i] == points[i];
    }
  }

  lemma KeysMembership<V>(d: Dict<int, V>, k: int)
    ensures k in Keys(d) <==> HasKey(d, k)
  {
    if HasKey(d, k) {
      assert Keys(d)[IndexOf(d, k)] == k;
    }
  }

  /** `for op in keys: m[op] = area`. */
  function FileAll(m: Dict<int, Area>, area: Area, keys: seq<int>): Dict<int, Area>
  {
    if |keys| == 0 then m
    else Put(FileAll(m, area, keys[..|keys| - 1]), keys[|keys| - 1], area)
  }

  lemma {:induction false} FileAllShape(m: Dict<int, Area>, area: Area, keys: seq<int>)
    requires DistinctKeys(m)
    ensures DistinctKeys(FileAll(m, area, keys))
    ensures forall op :: Lookup(FileAll(m, area, keys), op) == if op in keys then Some(area) else Lookup(m, op)
  {
    if |keys| > 0 {
      var n := |keys| - 1;
      FileAllShape(m, area, keys[..n]);
      PutDistinct(FileAll(m, area, keys[..n]), keys[n], area);
      forall op
        ensures Lookup(FileAll(m, area, keys), op) == if op in keys then Some(area) else Lookup(m, op)
      {
        PutLookup(FileAll(m, area, keys[..n]), keys[n], area, op);
        assert keys == keys[..n] + [keys[n]];
      }
    }
  }

  /** `operacao_para_area`: every operation of an area other than Picking, filed under that
      area, a later area overwriting an earlier one. */
  function AreaMap(points: AreaPoints): Dict<int, Area>
  {
    if |points| == 0 then []
    else
      var (area, ops) := points[|points| - 1];
      var m := AreaMap(points[..|points| - 1]);
      if area != Picking then FileAll(m, area, Keys(ops)) else m
  }

  /** Each placed operation is filed under the last area other than Picking that lists it. */
  lemma {:induction false} AreaMapShape(points: AreaPoints)
    ensures DistinctKeys(AreaMap(points))
    ensures forall op :: Lookup(AreaMap(points), op) == LastArea(points, op)
  {
    if |points| > 0 {
      var n := |points| - 1;
      var (area, ops) := points[n];
      AreaMapShape(points[..n]);
      if area != Picking {
        FileAllShape(AreaMap(points[..n]), area, Keys(ops));
        forall op
          ensures Lookup(AreaMap(points), op) == LastArea(points, op)
        {
          KeysMembership(ops, op);
        }
      }
    }
  }

  /** The loop that builds `operacao_para_area`. */
  method OperationAreas(points: AreaPoints) returns (m: Dict<int, Area>)
    ensures m == AreaMap(points)
  {
    m := [];
    var i := 0;
    while i < |points|
      invariant i <= |points|
      invariant m == AreaMap(points[..i])
    {
      var (area, ops) := points[i];
      assert points[..i + 1][..i] == points[..i];
      if area != Picking {
        var keys := Keys(ops);
        var j := 0;
        while j < |keys|
          invariant j <= |keys|
          invariant m == FileAll(AreaMap(points[..i]), area, keys[..j])
        {
          assert keys[..j + 1][..j] == keys[..j];
          m := Put(m, keys[j], area);
          j := j + 1;
        }
        assert keys[..j] == keys;
      }
      i := i + 1;
    }
    assert points[..i] == points;
  }

  /** `sorted(operacao_para_area.keys())`. */
  function SetupOps(points: AreaPoints): seq<int>
  {
    SortBy(Keys(AreaMap(points)), x => x)
  }

  /** The operations are those placed outside Picking, in increasing order. */
  lemma SetupOpsShape(points: AreaPoints)
    ensures StrictlyIncreasing(SetupOps(points))
    ensures forall op :: op in SetupOps(points) <==> Placed(points, op)
  {
    AreaMapShape(points);
    SortedKeys(AreaMap(points), x => x);
    SortedDistinctIncreasing(SetupOps(points));
    forall op
      ensures op in SetupOps(points) <==> Placed(points, op)
    {
      LastAreaSome(points, op);
    }
  }

  /** The setup time of one pair, with the forklift's fraction f. */
  function SetupValue(areas: Dict<int, Area>, deterministic: bool, tMin: real, tMax: real,
                      f: Unit, p: (int, int)): int
  {
    if p == (1, 2) || p == (3, 4) || p == (5, 6) then 0
    else if Lookup(areas, p.0) == Lookup(areas, p.1) then 0
    else Round(MidOrUniform(deterministic, tMin, tMax, f))
  }

  function SetupValues(areas: Dict<int, Area>, deterministic: bool, tMin: real, tMax: real,
                       factors: PairFactors, m: int): ((int, int)) -> int
  {
    (p: (int, int)) => SetupValue(areas, deterministic, tMin, tMax, factors(m, p.0, p.1), p)
  }

  /** The table of forklift m. */
  function SetupTable(points: AreaPoints, deterministic: bool, tMin: real, tMax: real,
                      factors: PairFactors, m: int): PairTable
  {
    Tabled(PairsOf(SetupOps(points)), SetupValues(AreaMap(points), deterministic, tMin, tMax, factors, m))
  }

  /** `calcular_setup`. */
  method SetupTimes(points: AreaPoints, deterministic: bool, tMin: real, tMax: real,
                    machines: int, factors: PairFactors) returns (tables: seq<PairTable>)
    ensures |tables| == if machines > 0 then machines else 0
    ensures forall i :: 0 <= i < |tables| ==>
      tables[i] == SetupTable(points, deterministic, tMin, tMax, factors, i + 1)
  {
    var areas := OperationAreas(points);
    var ops := SortBy(Keys(areas), x => x);
    var combos := Combinations(ops);
    tables := [];
    var m := 1;
    while m <= machines
      invariant 1 <= m && |tables| == m - 1
      invariant machines > 0 ==> m <= machines + 1
      invariant machines <= 0 ==> m == 1
      invariant forall i :: 0 <= i < |tables| ==>
        tables[i] == SetupTable(points, deterministic, tMin, tMax, factors, i + 1)
    {
      var table := FillTable(combos, SetupValues(areas, deterministic, tMin, tMax, factors, m));
      TablesStep(tables, table, points, deterministic, tMin, tMax, factors, areas, combos, m);
      tables := tables + [table];
      m := m + 1;
    }
  }

  /** One more forklift's table, after the tables of the forklifts before it. */
  lemma TablesStep(tables: seq<PairTable>, table: PairTable, points: AreaPoints, deterministic: bool,
                   tMin: real, tMax: real, factors: PairFactors, areas: Dict<int, Area>,
                   combos: seq<(int, int)>, m: int)
    requires areas == AreaMap(points) && combos == PairsOf(SetupOps(points))
    requires table == Tabled(combos, SetupValues(areas, deterministic, tMin, tMax, factors, m))
    requires forall i :: 0 <= i < |tables| ==>
      tables[i] == SetupTable(points, deterministic, tMin, tMax, factors, i + 1)
    requires |tables| == m - 1
    ensures var r := tables + [table];
      forall i :: 0 <= i < |r| ==> r[i] == SetupTable(points, deterministic, tMin, tMax, factors, i + 1)
  {
  }

  /** Every table is keyed by exactly the pairs of placed operations, the smaller first, in
      the order of the nested loops; there are n(n - 1)/2 of them for n operations. */
  lemma SetupKeys(points: AreaPoints, deterministic: bool, tMin: real, tMax: real,
                  factors: PairFactors, m: int)
    ensures var t := SetupTable(points, deterministic, tMin, tMax, factors, m);
      && DistinctKeys(t)
      && Keys(t) == PairsOf(SetupOps(points))
      && |t| == |SetupOps(points)| * (|SetupOps(points)| - 1) / 2
      && forall p :: HasKey(t, p) <==> Placed(points, p.0) && Placed(points, p.1) && p.0 < p.1
  {
    var ops := SetupOps(points);
    var value := SetupValues(AreaMap(points), deterministic, tMin, tMax, factors, m);
    SetupOpsShape(points);
    IncreasingIsDistinct(ops);
    PairsOfDistinct(ops);
    TabledShape(PairsOf(ops), value);
    PairsOfCount(ops);
    forall p
      ensures HasKey(Tabled(PairsOf(ops), value), p) <==> Placed(points, p.0) && Placed(points, p.1) && p.0 < p.1
    {
      PairsOfMembership(ops, p);
    }
  }

  /** The setup time of each listed pair: none for (1, 2), (3, 4) and (5, 6) or for two
      operations filed under the same area, and otherwise the rounded value drawn for the
      pair, which lies between the roundings of the two bounds and in deterministic mode is
      the rounded midpoint. */
  lemma SetupEntry(points: AreaPoints, deterministic: bool, tMin: real, tMax: real,
                   factors: PairFactors, m: int, p: (int, int))
    requires Placed(points, p.0) && Placed(points, p.1) && p.0 < p.1
    ensures var v := Lookup(SetupTable(points, deterministic, tMin, tMax, factors, m), p);
      && v.Some?
      && ((p == (1, 2) || p == (3, 4) || p == (5, 6)) ==> v.value == 0)
      && (LastArea(points, p.0) == LastArea(points, p.1) ==> v.value == 0)
      && (p != (1, 2) && p != (3, 4) && p != (5, 6) && LastArea(points, p.0) != LastArea(points, p.1) ==>
            && v.value == Round(MidOrUniform(deterministic, tMin, tMax, factors(m, p.0, p.1)))
            && (deterministic ==> v.value == Round((tMin + tMax) / 2.0))
            && (tMin <= tMax ==> Round(tMin) <= v.value <= Round(tMax)))
  {
    var ops := SetupOps(points);
    SetupOpsShape(points);
    PairsOfMembership(ops, p);
    AreaMapShape(points);
    TabledShape(PairsOf(ops), SetupValues(AreaMap(points), deterministic, tMin, tMax, factors, m));
    var x := MidOrUniform(deterministic, tMin, tMax, factors(m, p.0, p.1));
    if tMin <= tMax {
      RoundMonotone(tMin, x);
      RoundMonotone(x, tMax);
    }
  }

  /** In deterministic mode every forklift gets the same table. */
  lemma SetupDeterministic(points: AreaPoints, tMin: real, tMax: real, factors: PairFactors, m1: int, m2: int)
    ensures SetupTable(points, true, tMin, tMax, factors, m1) == SetupTable(points, true, tMin, tMax, factors, m2)
  {
    var areas := AreaMap(points);
    forall p: (int, int)
      ensures SetupValues(areas, true, tMin, tMax, factors, m1)(p) == SetupValues(areas, true, tMin, tMax, factors, m2)(p)
    {
      MidOrUniformDeterministic(tMin, tMax, factors(m1, p.0, p.1), factors(m2, p.0, p.1));
    }
    TabledAgrees(PairsOf(SetupOps(points)), SetupValues(areas, true, tMin, tMax, factors, m1),
                 SetupValues(areas, true, tMin, tMax, factors, m2));
  }
}
