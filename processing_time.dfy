/** `calcular_tempo_processamento`: for every forklift, the time and distance of each leg of
    travel it may be asked to drive. An odd operation of an area other than Picking is the
    leg from its point to the Picking point of the same operation; an even operation
    op + 1 of the outbound docks is the leg from the Picking point of op to its dock. The time
    is that of the round trip at the forklift's speed. */
module ProcessingTime {
  import opened Wrappers
  import opened Seqs
  import opened Dicts
  import opened Numbers
  import opened Areas
  import opened Distance
  import opened Forklifts
  import opened Labels
  import opened Sorting

  /** `{'tempo': ..., 'distancia': ...}`. */
  datatype Timing = Timing(time: int, distance: int)

  /** The speed range of a class of forklifts, in km/h. */
  datatype SpeedRange = SpeedRange(lo: real, hi: real)

  /** The random fraction behind the speed drawn for forklift m, area a and operation op. */
  type Factors = (int, Area, int) -> Unit

  /** `kmh_para_ms`. */
  function MetersPerSecond(kmh: real): real
  {
    kmh * 1000.0 / 3600.0
  }

  /** `obter_velocidade`, in km/h: the range of fast forklifts for a fast one and the range of
      slow forklifts otherwise. */
  function SpeedOf(kind: Speed, deterministic: bool, fast: SpeedRange, slow: SpeedRange, f: Unit): (r: real)
    ensures var range := if kind == Fast then fast else slow;
      (range.lo <= range.hi ==> range.lo <= r <= range.hi) && (range.hi <= range.lo ==> range.hi <= r <= range.lo)
  {
    var range := if kind == Fast then fast else slow;
    MidOrUniform(deterministic, range.lo, range.hi, f)
  }

  /** `round(2 * distancia / velocidade_ms)` and `round(distancia)`: the round trip of the
      distance at kmh km/h takes 7.2 * distance / kmh seconds; a zero speed divides by zero. */
  function TimingOf(distance: real, kmh: real): (r: Result<Timing>)
    ensures r.Failure? <==> kmh == 0.0
    ensures r.Failure? ==> r.error == ZeroDivision
    ensures r.Success? ==> r.value == Timing(Round(7.2 * distance / kmh), Round(distance))
  {
    var ms := MetersPerSecond(kmh);
    if ms == 0.0 then Failure(ZeroDivision)
    else
      assert 2.0 * distance / ms == 7.2 * distance / kmh by {
        assert ms == kmh / 3.6;
      }
      Success(Timing(Round(2.0 * distance / ms), Round(distance)))
  }

  // ---------------------------------------------------------------------------------------
  // Legs

  /** One leg of travel: the entry `key` of the table, driven between `from` and `to`, with the
      speed drawn for operation op of area `area`. */
  datatype Leg = Leg(key: int, area: Area, op: int, from: Point, to: Point)

  /** `coordenadas_por_area.get(area, {})`. */
  function PointsOf(points: AreaPoints, area: Area): Dict<int, Point>
  {
    match Lookup(points, area)
    case None => []
    case Some(d) => d
  }

  /** The legs of the first loop: the odd operations of areas other than Picking that have a
      Picking point, in the iteration order of `coordenadas_por_area`. */
  function PickingLegs(entries: seq<Entry>, picking: Dict<int, Point>): seq<Leg>
  {
    if |entries| == 0 then []
    else
      var e := entries[|entries| - 1];
      var before := PickingLegs(entries[..|entries| - 1], picking);
      if e.op % 2 != 0 && e.area != Picking && Lookup(picking, e.op).Some? then
        before + [Leg(e.op, e.area, e.op, e.point, Lookup(picking, e.op).value)]
      else before
  }

  /** The legs of the second loop: the odd Picking operations whose successor has an
      outbound dock point, in Picking order. */
  function DockLegs(picking: Dict<int, Point>, docks: Dict<int, Point>): seq<Leg>
  {
    if |picking| == 0 then []
    else
      var (op, p) := picking[|picking| - 1];
      var before := DockLegs(picking[..|picking| - 1], docks);
      if op % 2 != 0 && Lookup(docks, op + 1).Some? then
        before + [Leg(op + 1, Picking, op, p, Lookup(docks, op + 1).value)]
      else before
  }

  /** Every leg of one forklift's table, in the order the source computes them. */
  function Legs(points: AreaPoints): seq<Leg>
  {
    var picking := PointsOf(points, Picking);
    PickingLegs(Entries(points), picking) + DockLegs(picking, PointsOf(points, OutboundDocks))
  }

  // ---------------------------------------------------------------------------------------
  // One table

  /** The timing of a leg driven with the speed `speed(area, op)`. */
  function LegTiming(l: Leg, speed: (Area, int) -> real): Result<Timing>
  {
    TimingOf(Manhattan(l.from, l.to), speed(l.area, l.op))
  }

  /** The speed of forklift m of class `kind` on each leg. */
  function SpeedsOf(kind: Speed, m: int, deterministic: bool, fast: SpeedRange, slow: SpeedRange,
                    factors: Factors): (Area, int) -> real
  {
    (a: Area, op: int) => SpeedOf(kind, deterministic, fast, slow, factors(m, a, op))
  }

  /** The timing of each leg for forklift m of class `kind`. */
  function TimingsOf(kind: Speed, m: int, deterministic: bool, fast: SpeedRange, slow: SpeedRange,
                     factors: Factors): Leg -> Result<Timing>
  {
    (l: Leg) => LegTiming(l, SpeedsOf(kind, m, deterministic, fast, slow, factors))
  }

  /** Writing one more leg into a table, unless it has already raised. */
  function Write(table: Result<Dict<int, Timing>>, l: Leg, timing: Leg -> Result<Timing>): Result<Dict<int, Timing>>
  {
    if table.Failure? then table
    else
      var t := timing(l);
      if t.Failure? then Failure(t.error) else Success(Put(table.value, l.key, t.value))
  }

  /** The table `start` after writing the legs in turn. */
  function TabulateFrom(start: Result<Dict<int, Timing>>, legs: seq<Leg>, timing: Leg -> Result<Timing>)
    : Result<Dict<int, Timing>>
  {
    if |legs| == 0 then start
    else Write(TabulateFrom(start, legs[..|legs| - 1], timing), legs[|legs| - 1], timing)
  }

  /** The table after the legs, each entry written in turn; the first failed timing raises. */
  function Tabulate(legs: seq<Leg>, timing: Leg -> Result<Timing>): Result<Dict<int, Timing>>
  {
    TabulateFrom(Success([]), legs, timing)
  }

  lemma {:induction false} TabulateConcat(a: seq<Leg>, b: seq<Leg>, timing: Leg -> Result<Timing>)
    ensures Tabulate(a + b, timing) == TabulateFrom(Tabulate(a, timing), b, timing)
    decreases |b|
  {
    if |b| == 0 {
      assert a + b == a;
    } else {
      var n := |b| - 1;
      assert (a + b)[..|a| + n] == a + b[..n];
      TabulateConcat(a, b[..n], timing);
    }
  }

  lemma TabulateSnoc(start: Result<Dict<int, Timing>>, legs: seq<Leg>, l: Leg, timing: Leg -> Result<Timing>)
    ensures TabulateFrom(start, legs + [l], timing) == Write(TabulateFrom(start, legs, timing), l, timing)
  {
    assert (legs + [l])[..|legs|] == legs;
  }

  lemma PickingLegsSnoc(entries: seq<Entry>, e: Entry, picking: Dict<int, Point>)
    ensures PickingLegs(entries + [e], picking) ==
      if e.op % 2 != 0 && e.area != Picking && Lookup(picking, e.op).Some? then
        PickingLegs(entries, picking) + [Leg(e.op, e.area, e.op, e.point, Lookup(picking, e.op).value)]
      else PickingLegs(entries, picking)
  {
    assert (entries + [e])[..|entries|] == entries;
  }

  lemma DockLegsSnoc(picking: Dict<int, Point>, docks: Dict<int, Point>, k: nat, op: int, p: Point)
    requires k < |picking| && picking[k] == (op, p)
    ensures DockLegs(picking[..k + 1], docks) ==
      if op % 2 != 0 && Lookup(docks, op + 1).Some? then
        DockLegs(picking[..k], docks) + [Leg(op + 1, Picking, op, p, Lookup(docks, op + 1).value)]
      else DockLegs(picking[..k], docks)
  {
    assert picking[..k + 1][..k] == picking[..k];
  }

  /** The timing of some leg fails. */
  predicate Stalls(legs: seq<Leg>, timing: Leg -> Result<Timing>)
  {
    exists i :: 0 <= i < |legs| && timing(legs[i]).Failure?
  }

  /** The last leg with the given key: the one whose entry survives. */
  function LastLeg(legs: seq<Leg>, key: int): (r: Option<Leg>)
    ensures r.Some? ==> r.value in legs && r.value.key == key
  {
    if |legs| == 0 then None
    else if legs[|legs| - 1].key == key then Some(legs[|legs| - 1])
    else LastLeg(legs[..|legs| - 1], key)
  }

  /** The entry a leg leaves in the table, if any. */
  function Timed(l: Option<Leg>, timing: Leg -> Result<Timing>): Option<Timing>
  {
    match l
    case None => None
    case Some(leg) => var t := timing(leg); if t.Success? then Some(t.value) else None
  }

  /** A table holds, for every key, the timing of the last leg with that key, and nothing
      else. */
  ghost predicate TableOf(t: Dict<int, Timing>, legs: seq<Leg>, timing: Leg -> Result<Timing>)
  {
    && DistinctKeys(t)
    && forall k :: Lookup(t, k) == Timed(LastLeg(legs, k), timing)
  }

  lemma StallsSnoc(legs: seq<Leg>, timing: Leg -> Result<Timing>)
    requires |legs| > 0
    ensures var n := |legs| - 1;
      Stalls(legs, timing) <==> Stalls(legs[..n], timing) || timing(legs[n]).Failure?
  {
    var n := |legs| - 1;
    assert forall i :: 0 <= i < n ==> legs[..n][i] == legs[i];
  }

  lemma TabulateStep(t: Dict<int, Timing>, legs: seq<Leg>, timing: Leg -> Result<Timing>)
    requires |legs| > 0
    requires TableOf(t, legs[..|legs| - 1], timing)
    requires timing(legs[|legs| - 1]).Success?
    ensures TableOf(Put(t, legs[|legs| - 1].key, timing(legs[|legs| - 1]).value), legs, timing)
  {
    var l := legs[|legs| - 1];
    var v := timing(l).value;
    PutDistinct(t, l.key, v);
    forall k
      ensures Lookup(Put(t, l.key, v), k) == Timed(LastLeg(legs, k), timing)
    {
      PutLookup(t, l.key, v, k);
    }
  }

  /** The table is written unless the timing of some leg fails, and then holds the timing of
      the last leg of every key. */
  lemma {:induction false} TabulateShape(legs: seq<Leg>, timing: Leg -> Result<Timing>)
    ensures Tabulate(legs, timing).Failure? <==> Stalls(legs, timing)
    ensures Tabulate(legs, timing).Success? ==> TableOf(Tabulate(legs, timing).value, legs, timing)
  {
    if |legs| > 0 {
      var n := |legs| - 1;
      TabulateShape(legs[..n], timing);
      StallsSnoc(legs, timing);
      if !Stalls(legs, timing) {
        TabulateStep(Tabulate(legs[..n], timing).value, legs, timing);
      }
    }
  }

  /** A timing fails exactly at zero speed, and otherwise is the round trip of the leg at the
      forklift's speed. */
  lemma TimedLeg(l: Leg, speed: (Area, int) -> real)
    ensures LegTiming(l, speed).Failure? <==> speed(l.area, l.op) == 0.0
    ensures speed(l.area, l.op) != 0.0 ==>
      Timed(Some(l), (l': Leg) => LegTiming(l', speed))
        == Some(Timing(Round(7.2 * Manhattan(l.from, l.to) / speed(l.area, l.op)), Round(Manhattan(l.from, l.to))))
  {
  }

  /** Tables built with timings that agree on every leg are equal. */
  lemma {:induction false} TabulateAgrees(legs: seq<Leg>, t1: Leg -> Result<Timing>, t2: Leg -> Result<Timing>)
    requires forall i :: 0 <= i < |legs| ==> t1(legs[i]) == t2(legs[i])
    ensures Tabulate(legs, t1) == Tabulate(legs, t2)
  {
    if |legs| > 0 {
      var n := |legs| - 1;
      assert forall i :: 0 <= i < n ==> legs[..n][i] == legs[i];
      TabulateAgrees(legs[..n], t1, t2);
    }
  }

  /** In deterministic mode two forklifts of the same class get the same table. */
  lemma SameClassSameTable(points: AreaPoints, kind: Speed, m1: int, m2: int,
                           fast: SpeedRange, slow: SpeedRange, factors: Factors)
    ensures Tabulate(Legs(points), TimingsOf(kind, m1, true, fast, slow, factors))
         == Tabulate(Legs(points), TimingsOf(kind, m2, true, fast, slow, factors))
  {
    var legs := Legs(points);
    var t1 := TimingsOf(kind, m1, true, fast, slow, factors);
    var t2 := TimingsOf(kind, m2, true, fast, slow, factors);
    forall i | 0 <= i < |legs|
      ensures t1(legs[i]) == t2(legs[i])
    {
      var range := if kind == Fast then fast else slow;
      MidOrUniformDeterministic(range.lo, range.hi, factors(m1, legs[i].area, legs[i].op), factors(m2, legs[i].area, legs[i].op));
    }
    TabulateAgrees(legs, t1, t2);
  }

  /** Every forklift's table has the same keys: those of the legs. */
  lemma TableKeys(t: Dict<int, Timing>, legs: seq<Leg>, timing: Leg -> Result<Timing>, k: int)
    requires TableOf(t, legs, timing) && !Stalls(legs, timing)
    ensures HasKey(t, k) <==> LastLeg(legs, k).Some?
  {
    if LastLeg(legs, k).Some? {
      var l := LastLeg(legs, k).value;
      var i :| 0 <= i < |legs| && legs[i] == l;
    }
  }

  // ---------------------------------------------------------------------------------------
  // Which entries a table has

  /** The last placed operation op outside Picking: the one whose point the leg of op
      starts from. */
  function LastOutside(entries: seq<Entry>, op: int): (r: Option<Entry>)
    ensures r.Some? ==> r.value in entries && r.value.op == op && r.value.area != Picking
  {
    if |entries| == 0 then None
    else
      var e := entries[|entries| - 1];
      if e.op == op && e.area != Picking then Some(e) else LastOutside(entries[..|entries| - 1], op)
  }

  lemma LastLegConcat(a: seq<Leg>, b: seq<Leg>, key: int)
    ensures LastLeg(a + b, key) == if LastLeg(b, key).Some? then LastLeg(b, key) else LastLeg(a, key)
    decreases |b|
  {
    if |b| > 0 {
      var n := |b| - 1;
      assert (a + b)[..|a| + n] == a + b[..n];
      LastLegConcat(a, b[..n], key);
    } else {
      assert a + b == a;
    }
  }

  /** The leg of an odd key starts at the last point of that operation outside Picking, and
      exists exactly when the operation also has a Picking point. */
  lemma {:induction false} PickingLegsLast(entries: seq<Entry>, picking: Dict<int, Point>, k: int)
    ensures LastLeg(PickingLegs(entries, picking), k) ==
      if k % 2 != 0 && Lookup(picking, k).Some? && LastOutside(entries, k).Some? then
        Some(Leg(k, LastOutside(entries, k).value.area, k, LastOutside(entries, k).value.point, Lookup(picking, k).value))
      else None
  {
    if |entries| > 0 {
      var n := |entries| - 1;
      var init, e := entries[..n], entries[n];
      PickingLegsLast(init, picking, k);
      assert entries == init + [e];
      PickingLegsSnoc(init, e, picking);
      var c := e.op % 2 != 0 && e.area != Picking && Lookup(picking, e.op).Some?;
      var l := Leg(e.op, e.area, e.op, e.point, if c then Lookup(picking, e.op).value else e.point);
      LastLegMaybe(PickingLegs(init, picking), PickingLegs(entries, picking), l, c, k);
      var outside := if e.op == k && e.area != Picking then Some(e) else LastOutside(init, k);
      assert LastOutside(entries, k) == outside;
      if e.op == k && e.area != Picking {
        assert c <==> k % 2 != 0 && Lookup(picking, k).Some?;
      } else {
        assert e.op != k || !c;
      }
    }
  }

  /** The leg of an even key k starts at the Picking point of k - 1 and ends at the dock point
      of k, and exists exactly when both points do. */
  lemma {:induction false} DockLegsLast(picking: Dict<int, Point>, docks: Dict<int, Point>, k: int)
    requires DistinctKeys(picking)
    ensures LastLeg(DockLegs(picking, docks), k) ==
      if k % 2 == 0 && Lookup(picking, k - 1).Some? && Lookup(docks, k).Some? then
        Some(Leg(k, Picking, k - 1, Lookup(picking, k - 1).value, Lookup(docks, k).value))
      else None
  {
    if |picking| > 0 {
      var n := |picking| - 1;
      var init := picking[..n];
      var (op, p) := picking[n];
      InitDistinct(picking);
      DockLegsLast(init, docks, k);
      LookupSnoc(picking, k - 1);
      DockLegsSnoc(picking, docks, n, op, p);
      assert picking[..n + 1] == picking;
      var c := op % 2 != 0 && Lookup(docks, op + 1).Some?;
      var l := Leg(op + 1, Picking, op, p, if c then Lookup(docks, op + 1).value else p);
      LastLegMaybe(DockLegs(init, docks), DockLegs(picking, docks), l, c, k);
      if c && op + 1 == k {
        assert k % 2 == 0 && Lookup(picking, k - 1) == Some(p);
      } else if op + 1 == k {
        assert Lookup(picking, k - 1) == Some(p) && (k % 2 == 0 ==> Lookup(docks, k).None?);
      } else {
        assert Lookup(picking, k - 1) == Lookup(init, k - 1);
      }
    }
  }

  lemma InitDistinct(d: Dict<int, Point>)
    requires |d| > 0 && DistinctKeys(d)
    ensures DistinctKeys(d[..|d| - 1])
  {
    assert Keys(d[..|d| - 1]) == Keys(d)[..|d| - 1];
  }

  /** The last leg of a key after perhaps appending one more leg. */
  lemma LastLegMaybe(a: seq<Leg>, b: seq<Leg>, l: Leg, c: bool, key: int)
    requires b == if c then a + [l] else a
    ensures LastLeg(b, key) == if c && l.key == key then Some(l) else LastLeg(a, key)
  {
    if c {
      assert b[..|b| - 1] == a;
    }
  }

  /** Looking a key up in a dictionary without repeated keys, by its last entry. */
  lemma LookupSnoc(d: Dict<int, Point>, k: int)
    requires |d| > 0 && DistinctKeys(d)
    ensures Lookup(d, k) == if d[|d| - 1].0 == k then Some(d[|d| - 1].1) else Lookup(d[..|d| - 1], k)
  {
    var n := |d| - 1;
    var init := d[..n];
    assert forall i :: 0 <= i < n ==> init[i] == d[i];
    if d[n].0 == k {
      LookupAt(d, n);
    } else if HasKey(init, k) {
      assert Keys(init) == Keys(d)[..n];
      assert DistinctKeys(init);
      var i := IndexOf(init, k);
      LookupAt(init, i);
      LookupAt(d, i);
    }
  }

  /** Which legs a forklift's table has: odd operations of an area other than Picking that
      also have a Picking point, from their last such point, and even operations op + 1 of
      the outbound docks whose op has a Picking point, from that point. */
  lemma LegsLast(points: AreaPoints, k: int)
    requires DistinctKeys(PointsOf(points, Picking))
    ensures var picking := PointsOf(points, Picking);
      var docks := PointsOf(points, OutboundDocks);
      var outside := LastOutside(Entries(points), k);
      LastLeg(Legs(points), k) ==
        if k % 2 != 0 && Lookup(picking, k).Some? && outside.Some? then
          Some(Leg(k, outside.value.area, k, outside.value.point, Lookup(picking, k).value))
        else if k % 2 == 0 && Lookup(picking, k - 1).Some? && Lookup(docks, k).Some? then
          Some(Leg(k, Picking, k - 1, Lookup(picking, k - 1).value, Lookup(docks, k).value))
        else None
  {
    var picking := PointsOf(points, Picking);
    var docks := PointsOf(points, OutboundDocks);
    LastLegConcat(PickingLegs(Entries(points), picking), DockLegs(picking, docks), k);
    PickingLegsLast(Entries(points), picking, k);
    DockLegsLast(picking, docks, k);
  }

  // ---------------------------------------------------------------------------------------
  // The loops

  /** The first loop for one forklift: over every area and every operation placed in it. An
      exception is kept as a `Failure` that the remaining steps pass along. */
  method PickingLoop(points: AreaPoints, picking: Dict<int, Point>, timing: Leg -> Result<Timing>)
      returns (table: Result<Dict<int, Timing>>)
    ensures table == Tabulate(PickingLegs(Entries(points), picking), timing)
  {
    table := Success([]);
    var i := 0;
    while i < |points|
      invariant i <= |points|
      invariant table == Tabulate(PickingLegs(Entries(points[..i]), picking), timing)
    {
      var (area, ops) := points[i];
      var j := 0;
      assert Entries(points[..i]) + Row(area, ops[..j]) == Entries(points[..i]);
      while j < |ops|
        invariant j <= |ops|
        invariant table == Tabulate(PickingLegs(Entries(points[..i]) + Row(area, ops[..j]), picking), timing)
      {
        var (op, p) := ops[j];
        ghost var seen := Entries(points[..i]) + Row(area, ops[..j]);
        RowSnoc(area, ops, j);
        assert Entries(points[..i]) + Row(area, ops[..j + 1]) == seen + [Entry(area, op, p)];
        table := PickingStep(table, seen, Entry(area, op, p), picking, timing);
        j := j + 1;
      }
      assert ops[..j] == ops;
      EntriesSnoc(points, i);
      i := i + 1;
    }
    assert points[..i] == points;
  }

  /** Writing one leg's timing into the table, unless an earlier timing raised. */
  method WriteLeg(table: Result<Dict<int, Timing>>, l: Leg, timing: Leg -> Result<Timing>)
      returns (next: Result<Dict<int, Timing>>)
    ensures next == Write(table, l, timing)
  {
    next := table;
    if table.Success? {
      var t := timing(l);
      next := if t.Failure? then Failure(t.error) else Success(Put(table.value, l.key, t.value));
    }
  }

  /** The body of the first loop, for the operation e of an area. */
  method PickingStep(table: Result<Dict<int, Timing>>, ghost seen: seq<Entry>, e: Entry, picking: Dict<int, Point>,
                     timing: Leg -> Result<Timing>) returns (next: Result<Dict<int, Timing>>)
    requires table == Tabulate(PickingLegs(seen, picking), timing)
    ensures next == Tabulate(PickingLegs(seen + [e], picking), timing)
  {
    PickingLegsSnoc(seen, e, picking);
    next := table;
    if e.op % 2 != 0 && e.area != Picking {
      var target := Lookup(picking, e.op);
      if target.Some? {
        var l := Leg(e.op, e.area, e.op, e.point, target.value);
        TabulateSnoc(Success([]), PickingLegs(seen, picking), l, timing);
        next := WriteLeg(table, l, timing);
      }
    }
  }

  /** The body of the second loop, for the k-th Picking operation. */
  method DockStep(table0: Result<Dict<int, Timing>>, table: Result<Dict<int, Timing>>, picking: Dict<int, Point>,
                  docks: Dict<int, Point>, k: nat, timing: Leg -> Result<Timing>) returns (next: Result<Dict<int, Timing>>)
    requires k < |picking|
    requires table == TabulateFrom(table0, DockLegs(picking[..k], docks), timing)
    ensures next == TabulateFrom(table0, DockLegs(picking[..k + 1], docks), timing)
  {
    var (op, p) := picking[k];
    DockLegsSnoc(picking, docks, k, op, p);
    ghost var before := DockLegs(picking[..k], docks);
    next := table;
    if op % 2 != 0 {
      var target := Lookup(docks, op + 1);
      if target.Some? {
        var l := Leg(op + 1, Picking, op, p, target.value);
        TabulateSnoc(table0, before, l, timing);
        next := WriteLeg(table, l, timing);
      }
    }
  }

  /** The second loop for one forklift: over the Picking operations. */
  method DockLoop(table0: Result<Dict<int, Timing>>, picking: Dict<int, Point>,
                  docks: Dict<int, Point>, timing: Leg -> Result<Timing>)
      returns (table: Result<Dict<int, Timing>>)
    ensures table == TabulateFrom(table0, DockLegs(picking, docks), timing)
  {
    table := table0;
    var k := 0;
    while k < |picking|
      invariant k <= |picking|
      invariant table == TabulateFrom(table0, DockLegs(picking[..k], docks), timing)
    {
      table := DockStep(table0, table, picking, docks, k, timing);
      k := k + 1;
    }
    assert picking[..k] == picking;
  }

  /** `dict(sorted(t.items()))`: the same entries in increasing key order. */
  method SortByKey(t: Dict<int, Timing>) returns (sorted: Dict<int, Timing>)
    requires DistinctKeys(t)
    ensures DistinctKeys(sorted) && StrictlyIncreasing(Keys(sorted))
    ensures forall k :: Lookup(sorted, k) == Lookup(t, k)
  {
    var keys := SortBy(Keys(t), x => x);
    SortedKeys(t, x => x);
    SortedDistinctIncreasing(keys);
    assert forall j :: 0 <= j < |keys| ==> keys[j] in keys;
    sorted := Rebuild(t, keys, (v: Timing) => v);
    forall k
      ensures Lookup(sorted, k) == Lookup(t, k)
    {
      KeySetMembership(t, k);
    }
  }

  /** The two loops for one forklift, and the sort by operation that follows. */
  method MachineTable(points: AreaPoints, timing: Leg -> Result<Timing>) returns (r: Result<Dict<int, Timing>>)
    ensures r.Failure? <==> Stalls(Legs(points), timing)
    ensures r.Success? ==> TableOf(r.value, Legs(points), timing) && StrictlyIncreasing(Keys(r.value))
  {
    var picking := PointsOf(points, Picking);
    var docks := PointsOf(points, OutboundDocks);
    var table := PickingLoop(points, picking, timing);
    table := DockLoop(table, picking, docks, timing);
    TabulateConcat(PickingLegs(Entries(points), picking), DockLegs(picking, docks), timing);
    TabulateShape(Legs(points), timing);
    if table.Failure? {
      return Failure(table.error);
    }
    var sorted := SortByKey(table.value);
    return Success(sorted);
  }

  /** Some forklift drives some leg at zero speed. */
  predicate AnyStalls(kinds: seq<Speed>, points: AreaPoints, deterministic: bool,
                      fast: SpeedRange, slow: SpeedRange, factors: Factors)
  {
    exists i :: 0 <= i < |kinds| && Stalls(Legs(points), TimingsOf(kinds[i], i + 1, deterministic, fast, slow, factors))
  }

  /** `calcular_tempo_processamento`: one table per forklift, "Empilhadeira m" at position
      m - 1, each holding the timing of the last leg of every key, in increasing key order;
      it raises when some forklift drives some leg at zero speed. */
  method ProcessingTimes(kinds: seq<Speed>, points: AreaPoints, deterministic: bool,
                         fast: SpeedRange, slow: SpeedRange, factors: Factors)
      returns (r: Result<seq<Dict<int, Timing>>>)
    ensures r.Failure? <==> AnyStalls(kinds, points, deterministic, fast, slow, factors)
    ensures r.Success? ==>
      && |r.value| == |kinds|
      && forall i :: 0 <= i < |kinds| ==>
           && TableOf(r.value[i], Legs(points), TimingsOf(kinds[i], i + 1, deterministic, fast, slow, factors))
           && StrictlyIncreasing(Keys(r.value[i]))
  {
    var tables: seq<Dict<int, Timing>> := [];
    var i := 0;
    while i < |kinds|
      invariant i <= |kinds| && |tables| == i
      invariant NoStallBefore(kinds, points, deterministic, fast, slow, factors, i)
      invariant Tabulated(tables, kinds, points, deterministic, fast, slow, factors)
    {
      var timing := TimingsOf(kinds[i], i + 1, deterministic, fast, slow, factors);
      var table := MachineTable(points, timing);
      if table.Failure? {
        StallFound(kinds, points, deterministic, fast, slow, factors, i);
        return Failure(table.error);
      }
      TablesStep(tables, table.value, kinds, points, deterministic, fast, slow, factors);
      tables := tables + [table.value];
      i := i + 1;
    }
    return Success(tables);
  }

  /** No forklift before number n + 1 drives a leg at zero speed. */
  ghost predicate NoStallBefore(kinds: seq<Speed>, points: AreaPoints, deterministic: bool,
                                fast: SpeedRange, slow: SpeedRange, factors: Factors, n: nat)
    requires n <= |kinds|
  {
    forall j :: 0 <= j < n ==> !Stalls(Legs(points), TimingsOf(kinds[j], j + 1, deterministic, fast, slow, factors))
  }

  /** Table j is the table of forklift j + 1, in increasing key order. */
  ghost predicate Tabulated(tables: seq<Dict<int, Timing>>, kinds: seq<Speed>, points: AreaPoints,
                            deterministic: bool, fast: SpeedRange, slow: SpeedRange, factors: Factors)
    requires |tables| <= |kinds|
  {
    forall j :: 0 <= j < |tables| ==>
      && TableOf(tables[j], Legs(points), TimingsOf(kinds[j], j + 1, deterministic, fast, slow, factors))
      && StrictlyIncreasing(Keys(tables[j]))
  }

  lemma StallFound(kinds: seq<Speed>, points: AreaPoints, deterministic: bool,
                   fast: SpeedRange, slow: SpeedRange, factors: Factors, i: nat)
    requires i < |kinds|
    requires Stalls(Legs(points), TimingsOf(kinds[i], i + 1, deterministic, fast, slow, factors))
    ensures AnyStalls(kinds, points, deterministic, fast, slow, factors)
  {
  }

  /** The table of one more forklift, after the tables of the forklifts before it. */
  lemma TablesStep(tables: seq<Dict<int, Timing>>, t: Dict<int, Timing>, kinds: seq<Speed>, points: AreaPoints,
                   deterministic: bool, fast: SpeedRange, slow: SpeedRange, factors: Factors)
    requires |tables| < |kinds|
    requires Tabulated(tables, kinds, points, deterministic, fast, slow, factors)
    requires TableOf(t, Legs(points), TimingsOf(kinds[|tables|], |tables| + 1, deterministic, fast, slow, factors))
    requires StrictlyIncreasing(Keys(t))
    ensures Tabulated(tables + [t], kinds, points, deterministic, fast, slow, factors)
  {
  }
}
