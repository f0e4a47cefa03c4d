/** `alocar_pontos_operacoes`: every operation of the areas is given a point of the grid inside
    its area's rectangle. The outbound docks take the even operations of the trucks that have a
    dock, on the row of that dock; Picking takes the odd operations, either all at its centre
    or at grid points not yet taken while some remain; every other area takes the operations
    listed for it at free grid points.
    Each coordinate drawn with `random.choice` comes from the stream `draw`, keyed by the area,
    the operation and the axis. */
module Allocation {
  import opened Wrappers
  import opened Seqs
  import opened Dicts
  import opened Rand
  import opened Areas
  import opened Numbers
  import opened Layout
  import opened Grid
  import opened Docks

  datatype Axis = X | Y

  type Draws = (Area, int, Axis) -> nat

  type Points = Dict<int, Point>

  function GridPoint(x: int, y: int): Point
  {
    Point(x as real, y as real)
  }

  /** The x values drawn from inside a rectangle: one spacing past its left edge, then every
      spacing while left of its right edge. */
  function InteriorXs(rect: Rect, gs: int): seq<int>
    requires gs >= 1
  {
    Arange(rect.x + gs, rect.x + rect.w, gs)
  }

  function InteriorYs(rect: Rect, gs: int): seq<int>
    requires gs >= 1
  {
    Arange(rect.y + gs, rect.y + rect.h, gs)
  }

  /** An interior coordinate lies strictly inside the rectangle's span on a multiple of the
      spacing from its edge. */
  lemma InteriorMembership(lo: int, size: int, gs: int, v: int)
    requires gs >= 1
    ensures v in Arange(lo + gs, lo + size, gs) <==> lo + gs <= v < lo + size && (v - lo) % gs == 0
  {
    ArangeMembership(lo + gs, lo + size, gs, v);
    DivModUnique(v - lo, gs, (v - lo - gs) / gs + 1, (v - lo - gs) % gs);
  }

  // ---------------------------------------------------------------------------------------
  // Outbound docks

  /** `dock_y_coords`: the row of dock d (from 1) is the d-th value counting down from one
      spacing below the top of the rectangle to its bottom edge, which is excluded. */
  function DockYs(rect: Rect, gs: int): seq<int>
    requires gs >= 1
  {
    var yMax := rect.y + rect.h - gs;
    var yMin := rect.y + gs;
    ArangeDown(yMax, yMin - gs, gs)
  }

  /** Dock d sits d spacings below the top of the rectangle, so dock 1 is the highest. */
  lemma DockYsShape(rect: Rect, gs: int)
    requires gs >= 1
    ensures |DockYs(rect, gs)| == if rect.h > gs then CeilDiv(rect.h - gs, gs) else 0
    ensures forall d :: 1 <= d <= |DockYs(rect, gs)| ==> DockYs(rect, gs)[d - 1] == rect.y + rect.h - d * gs
  {
    var ys := DockYs(rect, gs);
    forall d | 1 <= d <= |ys|
      ensures ys[d - 1] == rect.y + rect.h - d * gs
    {
      assert (d - 1) * gs == d * gs - gs;
    }
  }

  /** In the layout a dock area is nDocks + 1 spacings high, which gives exactly nDocks rows. */
  lemma DockYsOfLayout(rect: Rect, gs: int, nDocks: nat)
    requires gs >= 1 && rect.h == (nDocks + 1) * gs
    ensures |DockYs(rect, gs)| == nDocks
  {
    DockYsShape(rect, gs);
    assert rect.h - gs == nDocks * gs;
    if nDocks > 0 {
      MulAtLeast(nDocks, gs);
      CeilDivExact(nDocks, gs);
    }
  }

  predicate HasEven(ops: seq<int>)
  {
    exists i :: 0 <= i < |ops| && ops[i] % 2 == 0
  }

  /** One truck's operations: each even operation gets a drawn x on the truck's dock row. */
  function EvenPoints(acc: Points, ops: seq<int>, xs: seq<int>, y: int, draw: Draws): Result<Points>
    decreases |ops|
  {
    if |ops| == 0 then Success(acc)
    else
      match EvenPoints(acc, ops[..|ops| - 1], xs, y, draw)
      case Failure(e) => Failure(e)
      case Success(d) =>
        var op := ops[|ops| - 1];
        if op % 2 != 0 then Success(d)
        else if |xs| == 0 then Failure(ChoiceFromEmpty)
        else Success(Put(d, op, GridPoint(Choice(xs, draw(OutboundDocks, op, X)), y)))
  }

  /** It fails exactly when there is an even operation and no x to draw; otherwise the even
      operations are mapped to their drawn point on the row and every other key is kept. */
  lemma {:induction false} EvenPointsShape(acc: Points, ops: seq<int>, xs: seq<int>, y: int, draw: Draws)
    ensures EvenPoints(acc, ops, xs, y, draw).Failure? <==> |xs| == 0 && HasEven(ops)
    ensures EvenPoints(acc, ops, xs, y, draw).Success? ==> forall k ::
      Lookup(EvenPoints(acc, ops, xs, y, draw).value, k) ==
        if |xs| > 0 && k in ops && k % 2 == 0 then Some(GridPoint(Choice(xs, draw(OutboundDocks, k, X)), y))
        else Lookup(acc, k)
    decreases |ops|
  {
    if |ops| > 0 {
      var n := |ops| - 1;
      var init, op := ops[..n], ops[n];
      EvenPointsShape(acc, init, xs, y, draw);
      assert ops == init + [op];
      assert HasEven(ops) <==> HasEven(init) || op % 2 == 0 by {
        if HasEven(ops) {
          var i :| 0 <= i < |ops| && ops[i] % 2 == 0;
          if i < n { assert init[i] == ops[i]; }
        }
        if HasEven(init) {
          var i :| 0 <= i < |init| && init[i] % 2 == 0;
          assert ops[i] == init[i];
        }
        if op % 2 == 0 { assert ops[n] == op; }
      }
      var r := EvenPoints(acc, ops, xs, y, draw);
      if r.Success? {
        var d := EvenPoints(acc, init, xs, y, draw).value;
        forall k
          ensures Lookup(r.value, k) ==
            if |xs| > 0 && k in ops && k % 2 == 0 then Some(GridPoint(Choice(xs, draw(OutboundDocks, k, X)), y))
            else Lookup(acc, k)
        {
          assert k in ops <==> k in init || k == op;
          if op % 2 == 0 {
            PutLookup(d, op, GridPoint(Choice(xs, draw(OutboundDocks, op, X)), y), k);
          }
        }
      }
    }
  }

  /** A failure stops the truck: the rest of its operations are not reached. */
  lemma {:induction false} EvenPointsFailureSticks(acc: Points, ops: seq<int>, j: nat, xs: seq<int>, y: int, draw: Draws)
    requires j <= |ops| && EvenPoints(acc, ops[..j], xs, y, draw).Failure?
    ensures EvenPoints(acc, ops, xs, y, draw) == EvenPoints(acc, ops[..j], xs, y, draw)
    decreases |ops| - j
  {
    if j < |ops| {
      assert ops[..j + 1][..j] == ops[..j];
      EvenPointsFailureSticks(acc, ops, j + 1, xs, y, draw);
    } else {
      assert ops[..j] == ops;
    }
  }

  /** The dock rows known for every associated truck. */
  predicate DocksKnown(trucks: seq<seq<int>>, assoc: seq<int>, nRows: nat)
  {
    forall t :: 0 <= t < |trucks| && t < |assoc| ==> 1 <= assoc[t] <= nRows
  }

  predicate SomeEvenDocked(trucks: seq<seq<int>>, assoc: seq<int>)
  {
    exists t :: 0 <= t < |trucks| && t < |assoc| && HasEven(trucks[t])
  }

  /** 'Docas saída': truck by truck, an associated truck looks up the row of its dock (a
      missing dock number fails) and places its even operations on it; a truck without a dock
      is passed over. */
  function OutboundPoints(trucks: seq<seq<int>>, assoc: seq<int>, ys: seq<int>, xs: seq<int>, draw: Draws): Result<Points>
    decreases |trucks|
  {
    if |trucks| == 0 then Success([])
    else
      match OutboundPoints(trucks[..|trucks| - 1], assoc, ys, xs, draw)
      case Failure(e) => Failure(e)
      case Success(d) =>
        var t := |trucks| - 1;
        if t >= |assoc| then Success(d)
        else if !(1 <= assoc[t] <= |ys|) then Failure(MissingKey)
        else EvenPoints(d, trucks[t], xs, ys[assoc[t] - 1], draw)
  }

  /** The truck whose dock an even operation k ends up at: the last associated truck that
      lists it. */
  function DockTruck(trucks: seq<seq<int>>, assoc: seq<int>, k: int): (r: Option<nat>)
    ensures r.Some? ==> r.value < |trucks| && r.value < |assoc| && k in trucks[r.value] && k % 2 == 0
    decreases |trucks|
  {
    if |trucks| == 0 then None
    else
      var t := |trucks| - 1;
      if t < |assoc| && k in trucks[t] && k % 2 == 0 then Some(t)
      else DockTruck(trucks[..t], assoc, k)
  }

  /** The point an even operation gets: a drawn x on the row of its truck's dock. */
  function DockPoint(trucks: seq<seq<int>>, assoc: seq<int>, ys: seq<int>, xs: seq<int>, draw: Draws, k: int): Option<Point>
  {
    match DockTruck(trucks, assoc, k)
    case None => None
    case Some(t) =>
      if 1 <= assoc[t] <= |ys| && |xs| > 0
      then Some(GridPoint(Choice(xs, draw(OutboundDocks, k, X)), ys[assoc[t] - 1]))
      else None
  }

  /** The outbound placement fails exactly when an associated truck's dock has no row, or
      when some associated truck has an even operation and there is no x to draw. Otherwise it
      holds exactly the even operations of associated trucks, each on its truck's dock row. */
  lemma {:induction false} OutboundPointsShape(trucks: seq<seq<int>>, assoc: seq<int>, ys: seq<int>, xs: seq<int>, draw: Draws)
    ensures OutboundPoints(trucks, assoc, ys, xs, draw).Failure? <==>
      !DocksKnown(trucks, assoc, |ys|) || (|xs| == 0 && SomeEvenDocked(trucks, assoc))
    ensures OutboundPoints(trucks, assoc, ys, xs, draw).Success? ==> forall k ::
      Lookup(OutboundPoints(trucks, assoc, ys, xs, draw).value, k) == DockPoint(trucks, assoc, ys, xs, draw, k)
    decreases |trucks|
  {
    if |trucks| > 0 {
      var n := |trucks| - 1;
      var init := trucks[..n];
      OutboundPointsShape(init, assoc, ys, xs, draw);
      OutboundSplit(trucks, assoc, |ys|);
      var prev := OutboundPoints(init, assoc, ys, xs, draw);
      if prev.Success? && n < |assoc| && 1 <= assoc[n] <= |ys| {
        var y := ys[assoc[n] - 1];
        EvenPointsShape(prev.value, trucks[n], xs, y, draw);
        var r := OutboundPoints(trucks, assoc, ys, xs, draw);
        if r.Success? {
          forall k
            ensures Lookup(r.value, k) == DockPoint(trucks, assoc, ys, xs, draw, k)
          {
          }
        }
      }
    }
  }

  /** How the two conditions split between the trucks before the last and the last one. */
  lemma OutboundSplit(trucks: seq<seq<int>>, assoc: seq<int>, nRows: nat)
    requires |trucks| > 0
    ensures var n := |trucks| - 1;
      && (DocksKnown(trucks, assoc, nRows) <==>
            DocksKnown(trucks[..n], assoc, nRows) && (n < |assoc| ==> 1 <= assoc[n] <= nRows))
      && (SomeEvenDocked(trucks, assoc) <==>
            SomeEvenDocked(trucks[..n], assoc) || (n < |assoc| && HasEven(trucks[n])))
  {
    var n := |trucks| - 1;
    if SomeEvenDocked(trucks, assoc) {
      var t :| 0 <= t < |trucks| && t < |assoc| && HasEven(trucks[t]);
      if t < n { assert trucks[..n][t] == trucks[t]; }
    }
    if SomeEvenDocked(trucks[..n], assoc) {
      var t :| 0 <= t < n && t < |assoc| && HasEven(trucks[..n][t]);
      assert trucks[t] == trucks[..n][t];
    }
  }

  /** When no later truck lists an even operation, it sits at the dock of the truck that
      lists it. Truck lists that partition the operations, as the pipeline builds them, meet
      this for every operation. */
  lemma {:induction false} DockTruckOfOwner(trucks: seq<seq<int>>, assoc: seq<int>, t: nat, k: int)
    requires t < |trucks| && t < |assoc| && k in trucks[t] && k % 2 == 0
    requires forall u :: t < u < |trucks| ==> k !in trucks[u]
    ensures DockTruck(trucks, assoc, k) == Some(t)
    decreases |trucks|
  {
    var n := |trucks| - 1;
    if t < n {
      assert trucks[..n][t] == trucks[t];
      DockTruckOfOwner(trucks[..n], assoc, t, k);
    }
  }

  lemma {:induction false} OutboundFailureSticks(trucks: seq<seq<int>>, t: nat, assoc: seq<int>, ys: seq<int>, xs: seq<int>, draw: Draws)
    requires t <= |trucks| && OutboundPoints(trucks[..t], assoc, ys, xs, draw).Failure?
    ensures OutboundPoints(trucks, assoc, ys, xs, draw) == OutboundPoints(trucks[..t], assoc, ys, xs, draw)
    decreases |trucks| - t
  {
    if t < |trucks| {
      assert trucks[..t + 1][..t] == trucks[..t];
      OutboundFailureSticks(trucks, t + 1, assoc, ys, xs, draw);
    } else {
      assert trucks[..t] == trucks;
    }
  }

  /** The outbound loop of `alocar_pontos_operacoes`, on the rectangle of 'Docas saída'. */
  method PlaceOutbound(rect: Rect, gs: int, assoc: seq<int>, trucks: seq<seq<int>>, draw: Draws)
    returns (r: Result<Points>)
    requires gs >= 1
    ensures r == OutboundPoints(trucks, assoc, DockYs(rect, gs), InteriorXs(rect, gs), draw)
  {
    var xs := InteriorXs(rect, gs);
    var ys := DockYs(rect, gs);
    var points: Points := [];
    for t := 0 to |trucks|
      invariant OutboundPoints(trucks[..t], assoc, ys, xs, draw) == Success(points)
    {
      assert trucks[..t + 1][..t] == trucks[..t];
      if t < |assoc| {
        var dock := assoc[t];
        if !(1 <= dock <= |ys|) {
          OutboundFailureSticks(trucks, t + 1, assoc, ys, xs, draw);
          return Failure(MissingKey);
        }
        var y := ys[dock - 1];
        var ops := trucks[t];
        var start := points;
        for j := 0 to |ops|
          invariant EvenPoints(start, ops[..j], xs, y, draw) == Success(points)
        {
          assert ops[..j + 1][..j] == ops[..j];
          var op := ops[j];
          if op % 2 == 0 {
            if |xs| == 0 {
              EvenPointsFailureSticks(start, ops, j + 1, xs, y, draw);
              OutboundFailureSticks(trucks, t + 1, assoc, ys, xs, draw);
              return Failure(ChoiceFromEmpty);
            }
            points := Put(points, op, GridPoint(Choice(xs, draw(OutboundDocks, op, X)), y));
          }
        }
        assert ops[..|ops|] == ops;
      }
    }
    assert trucks[..|trucks|] == trucks;
    r := Success(points);
  }

  // ---------------------------------------------------------------------------------------
  // Picking

  /** The odd operations of one truck, in its order. */
  function Odds(ops: seq<int>): seq<int>
    decreases |ops|
  {
    if |ops| == 0 then []
    else Odds(ops[..|ops| - 1]) + (if ops[|ops| - 1] % 2 != 0 then [ops[|ops| - 1]] else [])
  }

  lemma {:induction false} OddsMembership(ops: seq<int>, k: int)
    ensures k in Odds(ops) <==> k in ops && k % 2 != 0
    decreases |ops|
  {
    if |ops| > 0 {
      var n := |ops| - 1;
      OddsMembership(ops[..n], k);
      assert ops == ops[..n] + [ops[n]];
    }
  }

  /** The odd operations of all trucks, truck by truck, as Picking visits them. */
  function OddOps(trucks: seq<seq<int>>): seq<int>
    decreases |trucks|
  {
    if |trucks| == 0 then [] else OddOps(trucks[..|trucks| - 1]) + Odds(trucks[|trucks| - 1])
  }

  lemma {:induction false} OddOpsMembership(trucks: seq<seq<int>>, k: int)
    ensures k in OddOps(trucks) <==> k % 2 != 0 && exists t :: 0 <= t < |trucks| && k in trucks[t]
    decreases |trucks|
  {
    if |trucks| > 0 {
      var n := |trucks| - 1;
      OddOpsMembership(trucks[..n], k);
      OddsMembership(trucks[n], k);
      if exists t :: 0 <= t < |trucks| && k in trucks[t] {
        var t :| 0 <= t < |trucks| && k in trucks[t];
        if t < n { assert trucks[..n][t] == trucks[t]; }
      }
      if exists t :: 0 <= t < n && k in trucks[..n][t] {
        var t :| 0 <= t < n && k in trucks[..n][t];
        assert trucks[t] == trucks[..n][t];
      }
    }
  }

  /** One more operation of the truck being visited extends the visiting order by it when it
      is odd. */
  lemma OddOpsStep(trucks: seq<seq<int>>, t: nat, j: nat)
    requires t < |trucks| && j < |trucks[t]|
    ensures OddOps(trucks[..t]) + Odds(trucks[t][..j + 1]) ==
      (OddOps(trucks[..t]) + Odds(trucks[t][..j])) + (if trucks[t][j] % 2 != 0 then [trucks[t][j]] else [])
  {
    assert trucks[t][..j + 1][..j] == trucks[t][..j];
  }

  /** Moving on to the next truck once the current one is done. */
  lemma OddOpsNext(trucks: seq<seq<int>>, t: nat)
    requires t < |trucks|
    ensures OddOps(trucks[..t + 1]) == OddOps(trucks[..t]) + Odds(trucks[t][..|trucks[t]|])
  {
    assert trucks[..t + 1][..t] == trucks[..t];
    assert trucks[t][..|trucks[t]|] == trucks[t];
  }

  /** Centre of Picking: `x_min + width / 2`, `y_min + height / 2`, as exact fractions. */
  function Centre(rect: Rect): Point
  {
    Point(rect.x as real + rect.w as real / 2.0, rect.y as real + rect.h as real / 2.0)
  }

  /** Shared mode: every odd operation in visiting order is mapped to the same point. */
  function SharedPoints(odds: seq<int>, c: Point): Points
    decreases |odds|
  {
    if |odds| == 0 then [] else Put(SharedPoints(odds[..|odds| - 1], c), odds[|odds| - 1], c)
  }

  /** In shared mode the odd operations, and only they, are at the centre. */
  lemma {:induction false} SharedPointsShape(odds: seq<int>, c: Point)
    ensures forall k :: Lookup(SharedPoints(odds, c), k) == if k in odds then Some(c) else None
    decreases |odds|
  {
    if |odds| > 0 {
      var n := |odds| - 1;
      SharedPointsShape(odds[..n], c);
      assert odds == odds[..n] + [odds[n]];
      forall k
        ensures Lookup(SharedPoints(odds, c), k) == if k in odds then Some(c) else None
      {
        PutLookup(SharedPoints(odds[..n], c), odds[n], c, k);
      }
    }
  }

  method PlacePickingShared(rect: Rect, trucks: seq<seq<int>>) returns (points: Points)
    ensures points == SharedPoints(OddOps(trucks), Centre(rect))
  {
    var c := Centre(rect);
    points := [];
    for t := 0 to |trucks|
      invariant points == SharedPoints(OddOps(trucks[..t]), c)
    {
      var ops := trucks[t];
      assert OddOps(trucks[..t]) + Odds(ops[..0]) == OddOps(trucks[..t]) by {
        assert ops[..0] == [];
      }
      for j := 0 to |ops|
        invariant points == SharedPoints(OddOps(trucks[..t]) + Odds(ops[..j]), c)
      {
        OddOpsStep(trucks, t, j);
        var visited := OddOps(trucks[..t]) + Odds(ops[..j]);
        if ops[j] % 2 != 0 {
          assert (visited + [ops[j]])[..|visited|] == visited;
          points := Put(points, ops[j], c);
        } else {
          assert visited + [] == visited;
        }
      }
      OddOpsNext(trucks, t);
    }
    assert trucks[..|trucks|] == trucks;
  }

  /** `[p for p in possible_points_picking if p not in pontos_ocupados_picking]`. */
  function Available(cands: seq<(int, int)>, occupied: set<(int, int)>): (r: seq<(int, int)>)
    ensures forall p :: p in r <==> p in cands && p !in occupied
    decreases |cands|
  {
    if |cands| == 0 then []
    else
      var last := cands[|cands| - 1];
      var r := Available(cands[..|cands| - 1], occupied) + (if last in occupied then [] else [last]);
      assert forall p :: p in cands <==> p in cands[..|cands| - 1] || p == last by {
        assert cands == cands[..|cands| - 1] + [last];
      }
      r
  }

  /** The distributed mode's state: the points placed, the occupied grid points, and the
      points handed out one per odd operation in visiting order. */
  datatype PickState = PickState(points: Points, occupied: set<(int, int)>, chosen: seq<(int, int)>)

  /** One odd operation: a free candidate while there is one, which becomes occupied;
      otherwise any candidate; with no candidate at all the choice fails. */
  function PickStep(s: PickState, op: int, cands: seq<(int, int)>, draw: Draws): Result<PickState>
  {
    var free := Available(cands, s.occupied);
    if |free| > 0 then
      var p := Choice(free, draw(Picking, op, X));
      Success(PickState(Put(s.points, op, GridPoint(p.0, p.1)), s.occupied + {p}, s.chosen + [p]))
    else if |cands| == 0 then Failure(ChoiceFromEmpty)
    else
      var p := Choice(cands, draw(Picking, op, X));
      Success(PickState(Put(s.points, op, GridPoint(p.0, p.1)), s.occupied, s.chosen + [p]))
  }

  function PickRun(odds: seq<int>, cands: seq<(int, int)>, draw: Draws): Result<PickState>
    decreases |odds|
  {
    if |odds| == 0 then Success(PickState([], {}, []))
    else
      match PickRun(odds[..|odds| - 1], cands, draw)
      case Failure(e) => Failure(e)
      case Success(s) => PickStep(s, odds[|odds| - 1], cands, draw)
  }

  lemma PickRunSnoc(odds: seq<int>, op: int, cands: seq<(int, int)>, draw: Draws)
    requires PickRun(odds, cands, draw).Success?
    ensures PickRun(odds + [op], cands, draw) == PickStep(PickRun(odds, cands, draw).value, op, cands, draw)
  {
    assert (odds + [op])[..|odds|] == odds;
  }

  /** The Picking points of distributed mode. */
  function DistributedPoints(odds: seq<int>, cands: seq<(int, int)>, draw: Draws): Result<Points>
  {
    match PickRun(odds, cands, draw)
    case Failure(e) => Failure(e)
    case Success(s) => Success(s.points)
  }

  /** What the occupancy set keeps: it holds candidates only, and until the candidates run
      out it is exactly the set of points handed out, none of them twice. */
  predicate PickInvariant(s: PickState, cands: seq<(int, int)>)
  {
    && (forall p :: p in s.occupied ==> p in cands)
    && (|s.chosen| <= |cands| ==> Distinct(s.chosen) && s.occupied == Elements(s.chosen))
    && (forall i, j :: 0 <= i < j < |s.chosen| && j < |cands| ==> s.chosen[i] != s.chosen[j])
  }

  /** While fewer points have been handed out than there are distinct candidates, a free one
      remains. */
  lemma FreeWhileFewer(s: PickState, cands: seq<(int, int)>)
    requires Distinct(cands) && PickInvariant(s, cands)
    ensures |Available(cands, s.occupied)| == 0 ==> |s.chosen| >= |cands|
  {
    if |s.chosen| < |cands| {
      DistinctElements(s.chosen);
      DistinctElements(cands);
      assert s.occupied <= Elements(cands);
      SmallerSubset(s.occupied, Elements(cands));
      var p :| p in Elements(cands) && p !in s.occupied;
      assert p in Available(cands, s.occupied);
    }
  }

  lemma PickStepInvariant(s: PickState, op: int, cands: seq<(int, int)>, draw: Draws)
    requires Distinct(cands) && PickInvariant(s, cands)
    requires PickStep(s, op, cands, draw).Success?
    ensures PickInvariant(PickStep(s, op, cands, draw).value, cands)
  {
    var free := Available(cands, s.occupied);
    var s' := PickStep(s, op, cands, draw).value;
    var m := |s.chosen|;
    FreeWhileFewer(s, cands);
    if |free| > 0 {
      var p := Choice(free, draw(Picking, op, X));
      assert p in cands && p !in s.occupied;
      if m < |cands| {
        assert p !in s.chosen;
        assert Elements(s'.chosen) == Elements(s.chosen) + {p};
      }
      forall i, j | 0 <= i < j < |s'.chosen| && j < |cands|
        ensures s'.chosen[i] != s'.chosen[j]
      {
        if j == m {
          assert s.chosen[i] in Elements(s.chosen);
        }
      }
    }
  }

  /** What a run over the visited odd operations leaves: one handed-out point per visit,
      each a candidate, the visited operations as keys, and each operation at the point of
      its last visit. */
  ghost predicate RunShape(odds: seq<int>, cands: seq<(int, int)>, s: PickState)
  {
    && |s.chosen| == |odds|
    && (forall i :: 0 <= i < |odds| ==> s.chosen[i] in cands)
    && (forall k :: HasKey(s.points, k) <==> k in odds)
    && (forall i :: 0 <= i < |odds| && odds[i] !in odds[i + 1..] ==>
          Lookup(s.points, odds[i]) == Some(GridPoint(s.chosen[i].0, s.chosen[i].1)))
  }

  lemma RunShapeStep(odds: seq<int>, op: int, cands: seq<(int, int)>, draw: Draws, prev: PickState)
    requires RunShape(odds, cands, prev) && PickStep(prev, op, cands, draw).Success?
    ensures RunShape(odds + [op], cands, PickStep(prev, op, cands, draw).value)
  {
    var s := PickStep(prev, op, cands, draw).value;
    var n := |odds|;
    var c := s.chosen[n];
    assert s.chosen == prev.chosen + [c] && c in cands;
    RunShapeExtend(odds, op, cands, prev, s, c);
  }

  /** The visit of op hands out candidate c and puts op at its point. */
  lemma RunShapeExtend(odds: seq<int>, op: int, cands: seq<(int, int)>, prev: PickState, s: PickState, c: (int, int))
    requires RunShape(odds, cands, prev) && c in cands
    requires s.points == Put(prev.points, op, GridPoint(c.0, c.1)) && s.chosen == prev.chosen + [c]
    ensures RunShape(odds + [op], cands, s)
  {
    var all := odds + [op];
    var n := |odds|;
    var pt := GridPoint(c.0, c.1);
    forall k
      ensures HasKey(s.points, k) <==> k in all
    {
      PutLookup(prev.points, op, pt, k);
    }
    forall i | 0 <= i < |all| && all[i] !in all[i + 1..]
      ensures Lookup(s.points, all[i]) == Some(GridPoint(s.chosen[i].0, s.chosen[i].1))
    {
      PutLookup(prev.points, op, pt, all[i]);
      if i < n {
        assert all[i + 1..] == odds[i + 1..] + [op];
        assert odds[i] !in odds[i + 1..];
      }
    }
  }

  /** Distributed mode fails exactly when there is an odd operation and no candidate. Then
      every odd operation is placed at a candidate: the one handed out at its last visit. */
  lemma {:induction false} PickRunShape(odds: seq<int>, cands: seq<(int, int)>, draw: Draws)
    ensures PickRun(odds, cands, draw).Failure? <==> |cands| == 0 && |odds| > 0
    ensures PickRun(odds, cands, draw).Failure? ==> PickRun(odds, cands, draw) == Failure(ChoiceFromEmpty)
    ensures PickRun(odds, cands, draw).Success? ==> RunShape(odds, cands, PickRun(odds, cands, draw).value)
    decreases |odds|
  {
    if |odds| > 0 {
      var n := |odds| - 1;
      PickRunShape(odds[..n], cands, draw);
      assert odds == odds[..n] + [odds[n]];
      var prev := PickRun(odds[..n], cands, draw);
      if prev.Success? && PickStep(prev.value, odds[n], cands, draw).Success? {
        RunShapeStep(odds[..n], odds[n], cands, draw, prev.value);
      }
    }
  }

  /** With distinct candidates, the first odd operations, as many as there are candidates,
      get pairwise distinct points. */
  lemma {:induction false} PickRunDistinct(odds: seq<int>, cands: seq<(int, int)>, draw: Draws)
    requires Distinct(cands)
    ensures PickRun(odds, cands, draw).Success? ==> PickInvariant(PickRun(odds, cands, draw).value, cands)
    decreases |odds|
  {
    if |odds| > 0 {
      var n := |odds| - 1;
      PickRunDistinct(odds[..n], cands, draw);
      if PickRun(odds, cands, draw).Success? {
        PickStepInvariant(PickRun(odds[..n], cands, draw).value, odds[n], cands, draw);
      }
    }
  }

  /** `possible_points_picking`: the interior grid points of the rectangle, column by column. */
  function Candidates(rect: Rect, gs: int): seq<(int, int)>
    requires gs >= 1
  {
    Product(InteriorXs(rect, gs), InteriorYs(rect, gs))
  }

  /** The candidates are distinct points strictly inside the rectangle, on the grid. */
  lemma CandidatesShape(rect: Rect, gs: int)
    requires gs >= 1
    ensures Distinct(Candidates(rect, gs))
    ensures forall p :: p in Candidates(rect, gs) <==>
      && rect.x + gs <= p.0 < rect.x + rect.w && (p.0 - rect.x) % gs == 0
      && rect.y + gs <= p.1 < rect.y + rect.h && (p.1 - rect.y) % gs == 0
  {
    var xs, ys := InteriorXs(rect, gs), InteriorYs(rect, gs);
    ArangeIncreasing(rect.x + gs, rect.x + rect.w, gs);
    ArangeIncreasing(rect.y + gs, rect.y + rect.h, gs);
    IncreasingIsDistinct(xs);
    IncreasingIsDistinct(ys);
    ProductDistinct(xs, ys);
    forall p
      ensures p in Candidates(rect, gs) <==>
        && rect.x + gs <= p.0 < rect.x + rect.w && (p.0 - rect.x) % gs == 0
        && rect.y + gs <= p.1 < rect.y + rect.h && (p.1 - rect.y) % gs == 0
    {
      ProductMembership(xs, ys, p);
      InteriorMembership(rect.x, rect.w, gs, p.0);
      InteriorMembership(rect.y, rect.h, gs, p.1);
    }
  }

  /** The distributed loop of `alocar_pontos_operacoes` on the rectangle of 'Picking'. */
  method PlacePickingDistributed(rect: Rect, gs: int, trucks: seq<seq<int>>, draw: Draws)
    returns (r: Result<Points>)
    requires gs >= 1
    ensures r == DistributedPoints(OddOps(trucks), Candidates(rect, gs), draw)
  {
    var cands := Candidates(rect, gs);
    var points: Points := [];
    var occupied: set<(int, int)> := {};
    for t := 0 to |trucks|
      invariant PickRun(OddOps(trucks[..t]), cands, draw).Success?
      invariant PickRun(OddOps(trucks[..t]), cands, draw).value.points == points
      invariant PickRun(OddOps(trucks[..t]), cands, draw).value.occupied == occupied
    {
      var ops := trucks[t];
      assert OddOps(trucks[..t]) + Odds(ops[..0]) == OddOps(trucks[..t]) by {
        assert ops[..0] == [];
      }
      for j := 0 to |ops|
        invariant PickRun(OddOps(trucks[..t]) + Odds(ops[..j]), cands, draw).Success?
        invariant PickRun(OddOps(trucks[..t]) + Odds(ops[..j]), cands, draw).value.points == points
        invariant PickRun(OddOps(trucks[..t]) + Odds(ops[..j]), cands, draw).value.occupied == occupied
      {
        OddOpsStep(trucks, t, j);
        var visited := OddOps(trucks[..t]) + Odds(ops[..j]);
        var op := ops[j];
        if op % 2 != 0 {
          PickRunSnoc(visited, op, cands, draw);
          var free := Available(cands, occupied);
          if |free| > 0 {
            var p := Choice(free, draw(Picking, op, X));
            occupied := occupied + {p};
            points := Put(points, op, GridPoint(p.0, p.1));
          } else {
            if |cands| == 0 {
              OddOpsMembership(trucks, op);
              PickRunShape(OddOps(trucks), cands, draw);
              return Failure(ChoiceFromEmpty);
            }
            var p := Choice(cands, draw(Picking, op, X));
            points := Put(points, op, GridPoint(p.0, p.1));
          }
        } else {
          assert visited + [] == visited;
        }
      }
      OddOpsNext(trucks, t);
    }
    assert trucks[..|trucks|] == trucks;
    r := Success(points);
  }

  // ---------------------------------------------------------------------------------------
  // Other areas

  /** Storage areas and the inbound docks: every operation listed gets a drawn x and then a
      drawn y from the interior grid, with no occupancy kept. */
  function InteriorPoints(area: Area, ops: seq<int>, xs: seq<int>, ys: seq<int>, draw: Draws): Result<Points>
    decreases |ops|
  {
    if |ops| == 0 then Success([])
    else
      match InteriorPoints(area, ops[..|ops| - 1], xs, ys, draw)
      case Failure(e) => Failure(e)
      case Success(d) =>
        var op := ops[|ops| - 1];
        if |xs| == 0 || |ys| == 0 then Failure(ChoiceFromEmpty)
        else Success(Put(d, op, GridPoint(Choice(xs, draw(area, op, X)), Choice(ys, draw(area, op, Y)))))
  }

  /** It fails exactly when there is an operation and an empty grid; otherwise every listed
      operation, and nothing else, has its drawn point. */
  lemma {:induction false} InteriorPointsShape(area: Area, ops: seq<int>, xs: seq<int>, ys: seq<int>, draw: Draws)
    ensures InteriorPoints(area, ops, xs, ys, draw).Failure? <==> |ops| > 0 && (|xs| == 0 || |ys| == 0)
    ensures InteriorPoints(area, ops, xs, ys, draw).Success? ==> forall k ::
      Lookup(InteriorPoints(area, ops, xs, ys, draw).value, k) ==
        if k in ops && |xs| > 0 && |ys| > 0
        then Some(GridPoint(Choice(xs, draw(area, k, X)), Choice(ys, draw(area, k, Y))))
        else None
    decreases |ops|
  {
    if |ops| > 0 {
      var n := |ops| - 1;
      var init, op := ops[..n], ops[n];
      InteriorPointsShape(area, init, xs, ys, draw);
      assert ops == init + [op];
      var r := InteriorPoints(area, ops, xs, ys, draw);
      if r.Success? {
        var d := InteriorPoints(area, init, xs, ys, draw).value;
        forall k
          ensures Lookup(r.value, k) ==
            if k in ops && |xs| > 0 && |ys| > 0
            then Some(GridPoint(Choice(xs, draw(area, k, X)), Choice(ys, draw(area, k, Y))))
            else None
        {
          assert k in ops <==> k in init || k == op;
          PutLookup(d, op, GridPoint(Choice(xs, draw(area, op, X)), Choice(ys, draw(area, op, Y))), k);
        }
      }
    }
  }

  /** A drawn interior coordinate lies one spacing or more inside the rectangle's edge, before
      its far edge, on the spacing's grid. */
  lemma InteriorChoice(lo: int, size: int, gs: int, d: nat)
    requires gs >= 1 && |Arange(lo + gs, lo + size, gs)| > 0
    ensures var v := Choice(Arange(lo + gs, lo + size, gs), d);
      lo + gs <= v < lo + size && (v - lo) % gs == 0
  {
    InteriorMembership(lo, size, gs, Choice(Arange(lo + gs, lo + size, gs), d));
  }

  lemma {:induction false} InteriorFailureSticks(area: Area, ops: seq<int>, j: nat, xs: seq<int>, ys: seq<int>, draw: Draws)
    requires j <= |ops| && InteriorPoints(area, ops[..j], xs, ys, draw).Failure?
    ensures InteriorPoints(area, ops, xs, ys, draw) == InteriorPoints(area, ops[..j], xs, ys, draw)
    decreases |ops| - j
  {
    if j < |ops| {
      assert ops[..j + 1][..j] == ops[..j];
      InteriorFailureSticks(area, ops, j + 1, xs, ys, draw);
    } else {
      assert ops[..j] == ops;
    }
  }

  /** The areas the last loop handles: all but the outbound docks and Picking. */
  predicate Other(area: Area)
  {
    area != OutboundDocks && area != Picking
  }

  /** One other area: its rectangle is looked up, which fails when it is missing, and its
      operations are placed inside it. */
  function AreaPlacement(area: Area, ops: seq<int>, rects: AreaRects, gs: int, draw: Draws): Result<Points>
    requires gs >= 1
  {
    match Lookup(rects, area)
    case None => Failure(MissingKey)
    case Some(rect) => InteriorPoints(area, ops, InteriorXs(rect, gs), InteriorYs(rect, gs), draw)
  }

  function OtherAreas(acc: AreaPoints, areaOps: Dict<Area, seq<int>>, rects: AreaRects, gs: int, draw: Draws): Result<AreaPoints>
    requires gs >= 1
    decreases |areaOps|
  {
    if |areaOps| == 0 then Success(acc)
    else
      match OtherAreas(acc, areaOps[..|areaOps| - 1], rects, gs, draw)
      case Failure(e) => Failure(e)
      case Success(d) =>
        var (area, ops) := areaOps[|areaOps| - 1];
        if !Other(area) then Success(d)
        else
          match AreaPlacement(area, ops, rects, gs, draw)
          case Failure(e) => Failure(e)
          case Success(points) => Success(Put(d, area, points))
  }

  /** Some other area of the operation map cannot be placed. */
  predicate SomeAreaFails(areaOps: Dict<Area, seq<int>>, rects: AreaRects, gs: int, draw: Draws)
    requires gs >= 1
  {
    exists i :: 0 <= i < |areaOps| && Other(areaOps[i].0) && AreaPlacement(areaOps[i].0, areaOps[i].1, rects, gs, draw).Failure?
  }

  /** After the loop: each other area of the operation map holds its placement and every
      other key keeps what it held before the loop. */
  ghost predicate OthersPlaced(acc: AreaPoints, areaOps: Dict<Area, seq<int>>, rects: AreaRects, gs: int, draw: Draws, r: AreaPoints)
    requires gs >= 1
  {
    && (forall i :: 0 <= i < |areaOps| && Other(areaOps[i].0) ==>
          AreaPlacement(areaOps[i].0, areaOps[i].1, rects, gs, draw).Success? &&
          Lookup(r, areaOps[i].0) == Some(AreaPlacement(areaOps[i].0, areaOps[i].1, rects, gs, draw).value))
    && (forall a :: !(Other(a) && HasKey(areaOps, a)) ==> Lookup(r, a) == Lookup(acc, a))
  }

  lemma SomeAreaFailsSplit(areaOps: Dict<Area, seq<int>>, rects: AreaRects, gs: int, draw: Draws)
    requires gs >= 1 && |areaOps| > 0
    ensures var n := |areaOps| - 1;
      SomeAreaFails(areaOps, rects, gs, draw) <==>
        SomeAreaFails(areaOps[..n], rects, gs, draw) ||
        (Other(areaOps[n].0) && AreaPlacement(areaOps[n].0, areaOps[n].1, rects, gs, draw).Failure?)
  {
    var n := |areaOps| - 1;
    if SomeAreaFails(areaOps, rects, gs, draw) {
      var i :| 0 <= i < |areaOps| && Other(areaOps[i].0) && AreaPlacement(areaOps[i].0, areaOps[i].1, rects, gs, draw).Failure?;
      if i < n { assert areaOps[..n][i] == areaOps[i]; }
    }
    if SomeAreaFails(areaOps[..n], rects, gs, draw) {
      var i :| 0 <= i < n && Other(areaOps[..n][i].0) && AreaPlacement(areaOps[..n][i].0, areaOps[..n][i].1, rects, gs, draw).Failure?;
      assert areaOps[i] == areaOps[..n][i];
    }
  }

  /** Placing one more area keeps the shape; with distinct keys it cannot disturb an area
      placed before. */
  lemma OthersPlacedStep(acc: AreaPoints, areaOps: Dict<Area, seq<int>>, rects: AreaRects, gs: int, draw: Draws, d: AreaPoints)
    requires gs >= 1 && |areaOps| > 0 && DistinctKeys(areaOps)
    requires OthersPlaced(acc, areaOps[..|areaOps| - 1], rects, gs, draw, d)
    requires var (area, ops) := areaOps[|areaOps| - 1];
      Other(area) ==> AreaPlacement(area, ops, rects, gs, draw).Success?
    ensures var (area, ops) := areaOps[|areaOps| - 1];
      OthersPlaced(acc, areaOps, rects, gs, draw,
        if Other(area) then Put(d, area, AreaPlacement(area, ops, rects, gs, draw).value) else d)
  {
    var n := |areaOps| - 1;
    var init := areaOps[..n];
    var (area, ops) := areaOps[n];
    var r := if Other(area) then Put(d, area, AreaPlacement(area, ops, rects, gs, draw).value) else d;
    forall i | 0 <= i < |areaOps| && Other(areaOps[i].0)
      ensures AreaPlacement(areaOps[i].0, areaOps[i].1, rects, gs, draw).Success?
      ensures Lookup(r, areaOps[i].0) == Some(AreaPlacement(areaOps[i].0, areaOps[i].1, rects, gs, draw).value)
    {
      if Other(area) {
        PutLookup(d, area, AreaPlacement(area, ops, rects, gs, draw).value, areaOps[i].0);
      }
      if i < n {
        assert init[i] == areaOps[i];
      }
    }
    forall a | !(Other(a) && HasKey(areaOps, a))
      ensures Lookup(r, a) == Lookup(acc, a)
    {
      if Other(area) {
        PutLookup(d, area, AreaPlacement(area, ops, rects, gs, draw).value, a);
        assert areaOps[n].0 == area;
      }
      assert HasKey(init, a) ==> HasKey(areaOps, a) by {
        if HasKey(init, a) {
          var i :| 0 <= i < |init| && init[i].0 == a;
          assert areaOps[i].0 == a;
        }
      }
    }
  }

  /** The loop fails exactly when some other area cannot be placed; otherwise each other area
      of the operation map holds its placement and every other key is kept. */
  lemma {:induction false} OtherAreasShape(acc: AreaPoints, areaOps: Dict<Area, seq<int>>, rects: AreaRects, gs: int, draw: Draws)
    requires gs >= 1 && DistinctKeys(areaOps)
    ensures OtherAreas(acc, areaOps, rects, gs, draw).Failure? <==> SomeAreaFails(areaOps, rects, gs, draw)
    ensures OtherAreas(acc, areaOps, rects, gs, draw).Success? ==>
      OthersPlaced(acc, areaOps, rects, gs, draw, OtherAreas(acc, areaOps, rects, gs, draw).value)
    decreases |areaOps|
  {
    if |areaOps| > 0 {
      var n := |areaOps| - 1;
      OtherAreasShape(acc, areaOps[..n], rects, gs, draw);
      SomeAreaFailsSplit(areaOps, rects, gs, draw);
      var prev := OtherAreas(acc, areaOps[..n], rects, gs, draw);
      var (area, ops) := areaOps[n];
      if prev.Success? && (Other(area) ==> AreaPlacement(area, ops, rects, gs, draw).Success?) {
        OthersPlacedStep(acc, areaOps, rects, gs, draw, prev.value);
      }
    }
  }

  lemma {:induction false} OthersFailureSticks(acc: AreaPoints, areaOps: Dict<Area, seq<int>>, i: nat, rects: AreaRects, gs: int, draw: Draws)
    requires gs >= 1 && i <= |areaOps| && OtherAreas(acc, areaOps[..i], rects, gs, draw).Failure?
    ensures OtherAreas(acc, areaOps, rects, gs, draw) == OtherAreas(acc, areaOps[..i], rects, gs, draw)
    decreases |areaOps| - i
  {
    if i < |areaOps| {
      assert areaOps[..i + 1][..i] == areaOps[..i];
      OthersFailureSticks(acc, areaOps, i + 1, rects, gs, draw);
    } else {
      assert areaOps[..i] == areaOps;
    }
  }

  /** The last loop of `alocar_pontos_operacoes`, over `operacoes_por_area_final`. */
  method PlaceOthers(acc: AreaPoints, areaOps: Dict<Area, seq<int>>, rects: AreaRects, gs: int, draw: Draws)
    returns (r: Result<AreaPoints>)
    requires gs >= 1
    ensures r == OtherAreas(acc, areaOps, rects, gs, draw)
  {
    var result := acc;
    for i := 0 to |areaOps|
      invariant OtherAreas(acc, areaOps[..i], rects, gs, draw) == Success(result)
    {
      assert areaOps[..i + 1][..i] == areaOps[..i];
      var (area, ops) := areaOps[i];
      if Other(area) {
        var found := Lookup(rects, area);
        if found.None? {
          OthersFailureSticks(acc, areaOps, i + 1, rects, gs, draw);
          return Failure(MissingKey);
        }
        var rect := found.value;
        var xs, ys := InteriorXs(rect, gs), InteriorYs(rect, gs);
        var points: Points := [];
        for j := 0 to |ops|
          invariant InteriorPoints(area, ops[..j], xs, ys, draw) == Success(points)
        {
          assert ops[..j + 1][..j] == ops[..j];
          if |xs| == 0 || |ys| == 0 {
            InteriorFailureSticks(area, ops, j + 1, xs, ys, draw);
            OthersFailureSticks(acc, areaOps, i + 1, rects, gs, draw);
            return Failure(ChoiceFromEmpty);
          }
          var op := ops[j];
          var x := Choice(xs, draw(area, op, X));
          var y := Choice(ys, draw(area, op, Y));
          points := Put(points, op, GridPoint(x, y));
        }
        assert ops[..|ops|] == ops;
        result := Put(result, area, points);
      }
    }
    assert areaOps[..|areaOps|] == areaOps;
    r := Success(result);
  }

  // ---------------------------------------------------------------------------------------
  // The whole allocation

  /** 'Docas saída', when the layout has it. */
  function DockedStage(rects: AreaRects, gs: int, assoc: seq<int>, trucks: seq<seq<int>>, draw: Draws): Result<AreaPoints>
    requires gs >= 1
  {
    match Lookup(rects, OutboundDocks)
    case None => Success([])
    case Some(rect) =>
      match OutboundPoints(trucks, assoc, DockYs(rect, gs), InteriorXs(rect, gs), draw)
      case Failure(e) => Failure(e)
      case Success(points) => Success([(OutboundDocks, points)])
  }

  /** 'Picking', when the layout has it, in the chosen mode. */
  function PickingStage(acc: AreaPoints, rects: AreaRects, gs: int, trucks: seq<seq<int>>, sharedPicking: bool, draw: Draws): Result<AreaPoints>
    requires gs >= 1
  {
    match Lookup(rects, Picking)
    case None => Success(acc)
    case Some(rect) =>
      if sharedPicking then Success(Put(acc, Picking, SharedPoints(OddOps(trucks), Centre(rect))))
      else
        match DistributedPoints(OddOps(trucks), Candidates(rect, gs), draw)
        case Failure(e) => Failure(e)
        case Success(points) => Success(Put(acc, Picking, points))
  }

  /** 'Docas saída' first, then 'Picking', then the other areas of the operation map in its
      order. */
  function AllocatedPoints(areaOps: Dict<Area, seq<int>>, rects: AreaRects, gs: int, assoc: seq<int>,
                           trucks: seq<seq<int>>, sharedPicking: bool, draw: Draws): Result<AreaPoints>
    requires gs >= 1
  {
    match DockedStage(rects, gs, assoc, trucks, draw)
    case Failure(e) => Failure(e)
    case Success(withDocks) =>
      match PickingStage(withDocks, rects, gs, trucks, sharedPicking, draw)
      case Failure(e) => Failure(e)
      case Success(withPicking) => OtherAreas(withPicking, areaOps, rects, gs, draw)
  }

  /** `alocar_pontos_operacoes`. */
  method AllocatePoints(areaOps: Dict<Area, seq<int>>, rects: AreaRects, gs: int, assoc: seq<int>,
                        trucks: seq<seq<int>>, sharedPicking: bool, draw: Draws)
    returns (r: Result<AreaPoints>)
    requires gs >= 1
    ensures r == AllocatedPoints(areaOps, rects, gs, assoc, trucks, sharedPicking, draw)
  {
    var result: AreaPoints := [];
    var dockRect := Lookup(rects, OutboundDocks);
    if dockRect.Some? {
      var placed := PlaceOutbound(dockRect.value, gs, assoc, trucks, draw);
      if placed.Failure? {
        return Failure(placed.error);
      }
      result := Put(result, OutboundDocks, placed.value);
      assert result == [(OutboundDocks, placed.value)];
    }
    assert DockedStage(rects, gs, assoc, trucks, draw) == Success(result);
    var pickingRect := Lookup(rects, Picking);
    if pickingRect.Some? {
      if sharedPicking {
        var points := PlacePickingShared(pickingRect.value, trucks);
        result := Put(result, Picking, points);
      } else {
        var placed := PlacePickingDistributed(pickingRect.value, gs, trucks, draw);
        if placed.Failure? {
          return Failure(placed.error);
        }
        result := Put(result, Picking, placed.value);
      }
    }
    r := PlaceOthers(result, areaOps, rects, gs, draw);
  }

  lemma DockedStageKeys(rects: AreaRects, gs: int, assoc: seq<int>, trucks: seq<seq<int>>, draw: Draws, a: Area)
    requires gs >= 1 && DockedStage(rects, gs, assoc, trucks, draw).Success?
    ensures HasKey(DockedStage(rects, gs, assoc, trucks, draw).value, a) <==> a == OutboundDocks && HasKey(rects, OutboundDocks)
  {
    var r := DockedStage(rects, gs, assoc, trucks, draw).value;
    if HasKey(r, a) {
      assert r[0].0 == a;
    }
    if a == OutboundDocks && HasKey(rects, OutboundDocks) {
      assert r[0].0 == a;
    }
  }

  lemma PickingStageKeys(acc: AreaPoints, rects: AreaRects, gs: int, trucks: seq<seq<int>>, sharedPicking: bool, draw: Draws, a: Area)
    requires gs >= 1 && PickingStage(acc, rects, gs, trucks, sharedPicking, draw).Success?
    ensures HasKey(PickingStage(acc, rects, gs, trucks, sharedPicking, draw).value, a) <==>
      HasKey(acc, a) || (a == Picking && HasKey(rects, Picking))
  {
    var r := PickingStage(acc, rects, gs, trucks, sharedPicking, draw).value;
    if HasKey(rects, Picking) {
      assert r == Put(acc, Picking, if sharedPicking then SharedPoints(OddOps(trucks), Centre(Lookup(rects, Picking).value))
        else DistributedPoints(OddOps(trucks), Candidates(Lookup(rects, Picking).value, gs), draw).value);
      PutLookup(acc, Picking, if sharedPicking then SharedPoints(OddOps(trucks), Centre(Lookup(rects, Picking).value))
        else DistributedPoints(OddOps(trucks), Candidates(Lookup(rects, Picking).value, gs), draw).value, a);
    }
  }

  /** A successful allocation has a key for 'Docas saída' and for 'Picking' exactly when the
      layout has their rectangles, and for each other area exactly when the operation map
      lists it. */
  lemma AllocationKeys(areaOps: Dict<Area, seq<int>>, rects: AreaRects, gs: int, assoc: seq<int>,
                       trucks: seq<seq<int>>, sharedPicking: bool, draw: Draws, a: Area)
    requires gs >= 1 && DistinctKeys(areaOps)
    requires AllocatedPoints(areaOps, rects, gs, assoc, trucks, sharedPicking, draw).Success?
    ensures HasKey(AllocatedPoints(areaOps, rects, gs, assoc, trucks, sharedPicking, draw).value, a) <==>
      if Other(a) then HasKey(areaOps, a) else HasKey(rects, a)
  {
    var withDocks := DockedStage(rects, gs, assoc, trucks, draw).value;
    var withPicking := PickingStage(withDocks, rects, gs, trucks, sharedPicking, draw).value;
    DockedStageKeys(rects, gs, assoc, trucks, draw, a);
    PickingStageKeys(withDocks, rects, gs, trucks, sharedPicking, draw, a);
    OtherAreasShape(withPicking, areaOps, rects, gs, draw);
    var r := OtherAreas(withPicking, areaOps, rects, gs, draw).value;
    if Other(a) && HasKey(areaOps, a) {
      var i := IndexOf(areaOps, a);
      assert Lookup(r, areaOps[i].0).Some?;
    }
  }

  /** With the layout's dock area and the dock association, every associated truck finds the
      row of its dock, so the outbound placement cannot fail on a missing dock. */
  lemma LayoutDocksKnown(nStorages: nat, nDocks: nat, pickingWidth: int, gs: int,
                         nTrucks: nat, dockDraw: nat -> nat, trucks: seq<seq<int>>)
    requires pickingWidth != -4 && gs >= 1 && nDocks > 0
    ensures LayoutOf(nStorages, nDocks, pickingWidth, gs).Success?
    ensures var rects := LayoutOf(nStorages, nDocks, pickingWidth, gs).value;
      && Lookup(rects, OutboundDocks).Some?
      && |DockYs(Lookup(rects, OutboundDocks).value, gs)| == nDocks
      && DocksKnown(trucks, DockAssignment(nTrucks, nDocks, dockDraw).value, nDocks)
  {
    LayoutKeys(nStorages, nDocks, pickingWidth, gs);
    LayoutTopRow(nStorages, nDocks, pickingWidth, gs);
    var rects := LayoutOf(nStorages, nDocks, pickingWidth, gs).value;
    LookupAt(rects, 2);
    DockYsOfLayout(rects[2].1, gs, nDocks);
    DockAssignmentShape(nTrucks, nDocks, dockDraw);
  }
}
