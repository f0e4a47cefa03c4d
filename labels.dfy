/** The label map of `plotar_layout_com_pontos`. Each placed operation names its point by the
    role it plays for a leg: "12o" is the origin of operation 12, "12d" its destination, and
    "*d,*o" is the single shared point of the Picking area. The labels are returned ordered by
    number, with the origin before the destination. The drawing is not part of this model. */
module Labels {
  import opened Wrappers
  import opened Seqs
  import opened Dicts
  import opened Areas
  import opened Sorting

  /** "{op}o", "{op}d" and "*d,*o". */
  datatype Label = Origin(op: int) | Dest(op: int) | Shared

  /** One placed operation, in the iteration order of `coordenadas_por_area`. */
  datatype Entry = Entry(area: Area, op: int, point: Point)

  function Row(area: Area, points: Dict<int, Point>): (r: seq<Entry>)
    ensures |r| == |points|
    ensures forall j :: 0 <= j < |r| ==> r[j] == Entry(area, points[j].0, points[j].1)
  {
    seq(|points|, j requires 0 <= j < |points| => Entry(area, points[j].0, points[j].1))
  }

  /** The placed operations, area by area. */
  function Entries(areaPoints: AreaPoints): seq<Entry>
  {
    if |areaPoints| == 0 then []
    else
      var last := areaPoints[|areaPoints| - 1];
      Entries(areaPoints[..|areaPoints| - 1]) + Row(last.0, last.1)
  }

  lemma RowSnoc(area: Area, points: Dict<int, Point>, j: nat)
    requires j < |points|
    ensures Row(area, points[..j + 1]) == Row(area, points[..j]) + [Entry(area, points[j].0, points[j].1)]
  {
  }

  lemma EntriesSnoc(areaPoints: AreaPoints, i: nat)
    requires i < |areaPoints|
    ensures Entries(areaPoints[..i + 1]) == Entries(areaPoints[..i]) + Row(areaPoints[i].0, areaPoints[i].1)
  {
    assert areaPoints[..i + 1][..i] == areaPoints[..i];
  }

  /** Whether an operation names its point l, leaving aside that "*d,*o" is added only once:
      storage and inbound operations are origins, outbound operations destinations, and a
      Picking operation is the destination of itself and the origin of the next operation,
      unless the Picking point is shared. */
  predicate Emits(e: Entry, shared: bool, l: Label)
  {
    match l
    case Origin(n) =>
      ((e.area.Storage? || e.area == InboundDocks) && e.op == n)
      || (e.area == Picking && !shared && e.op + 1 == n)
    case Dest(n) =>
      (e.area == OutboundDocks && e.op == n) || (e.area == Picking && !shared && e.op == n)
    case Shared => e.area == Picking && shared
  }

  /** The point of the first entry that names l. */
  function FirstPoint(entries: seq<Entry>, shared: bool, l: Label): Option<Point>
  {
    if |entries| == 0 then None
    else if Emits(entries[0], shared, l) then Some(entries[0].point)
    else FirstPoint(entries[1..], shared, l)
  }

  /** The point of the last entry that names l. */
  function LastPoint(entries: seq<Entry>, shared: bool, l: Label): Option<Point>
  {
    if |entries| == 0 then None
    else if Emits(entries[|entries| - 1], shared, l) then Some(entries[|entries| - 1].point)
    else LastPoint(entries[..|entries| - 1], shared, l)
  }

  /** The point the label map gives l: a later assignment of a label replaces an earlier
      one, and "*d,*o" is assigned once, at the first Picking operation. */
  function PointOf(entries: seq<Entry>, shared: bool, l: Label): Option<Point>
  {
    if l == Shared then FirstPoint(entries, shared, l) else LastPoint(entries, shared, l)
  }

  lemma {:induction false} FirstPointSnoc(entries: seq<Entry>, shared: bool, l: Label, e: Entry)
    ensures FirstPoint(entries + [e], shared, l) ==
      if FirstPoint(entries, shared, l).Some? then FirstPoint(entries, shared, l)
      else if Emits(e, shared, l) then Some(e.point)
      else None
    decreases |entries|
  {
    if |entries| > 0 {
      assert (entries + [e])[1..] == entries[1..] + [e];
      FirstPointSnoc(entries[1..], shared, l, e);
    }
  }

  /** One more operation: "*d,*o" keeps its first point, any other label takes the new
      operation's point when the operation names it. */
  lemma PointOfSnoc(entries: seq<Entry>, shared: bool, l: Label, e: Entry)
    ensures PointOf(entries + [e], shared, l) ==
      if l == Shared then
        if FirstPoint(entries, shared, l).Some? then FirstPoint(entries, shared, l)
        else if Emits(e, shared, l) then Some(e.point)
        else None
      else if Emits(e, shared, l) then Some(e.point)
      else PointOf(entries, shared, l)
  {
    var all := entries + [e];
    assert all[..|all| - 1] == entries;
    FirstPointSnoc(entries, shared, l, e);
  }

  /** The labels are named exactly by the operations that emit them. */
  lemma {:induction false} PointOfSome(entries: seq<Entry>, shared: bool, l: Label)
    ensures PointOf(entries, shared, l).Some? <==>
      exists i :: 0 <= i < |entries| && Emits(entries[i], shared, l)
    decreases |entries|
  {
    if |entries| > 0 {
      var init := entries[..|entries| - 1];
      PointOfSome(init, shared, l);
      if l == Shared {
        assert entries == init + [entries[|entries| - 1]];
        FirstPointSnoc(init, shared, l, entries[|entries| - 1]);
      }
      if exists i :: 0 <= i < |entries| && Emits(entries[i], shared, l) {
        var i :| 0 <= i < |entries| && Emits(entries[i], shared, l);
        if i < |entries| - 1 {
          assert init[i] == entries[i];
        }
      }
      assert forall i :: 0 <= i < |init| ==> init[i] == entries[i];
    }
  }

  /** A label named more than once keeps the point of its last operation. */
  lemma {:induction false} LastPointAt(entries: seq<Entry>, shared: bool, l: Label, i: nat)
    requires i < |entries| && Emits(entries[i], shared, l)
    requires forall j :: i < j < |entries| ==> !Emits(entries[j], shared, l)
    ensures LastPoint(entries, shared, l) == Some(entries[i].point)
    decreases |entries|
  {
    if i < |entries| - 1 {
      var init := entries[..|entries| - 1];
      LastPointAt(init, shared, l, i);
    }
  }

  /** "*d,*o" sits at the first Picking operation. */
  lemma {:induction false} FirstPointAt(entries: seq<Entry>, shared: bool, l: Label, i: nat)
    requires i < |entries| && Emits(entries[i], shared, l)
    requires forall j :: 0 <= j < i ==> !Emits(entries[j], shared, l)
    ensures FirstPoint(entries, shared, l) == Some(entries[i].point)
    decreases i
  {
    if i > 0 {
      FirstPointAt(entries[1..], shared, l, i - 1);
    }
  }

  /** The label map so far, and whether "*d,*o" has been added (`plotou_label_picking`). */
  type LabelState = (Dict<Label, Point>, bool)

  /** The labels of one operation, added at its point. */
  function LabelStep(state: LabelState, e: Entry, shared: bool): LabelState
  {
    var (detailed, plotted) := state;
    if e.area.Storage? || e.area == InboundDocks then (Put(detailed, Origin(e.op), e.point), plotted)
    else if e.area == Picking then
      if shared && !plotted then (Put(detailed, Shared, e.point), true)
      else if !shared then (Put(Put(detailed, Dest(e.op), e.point), Origin(e.op + 1), e.point), plotted)
      else state
    else (Put(detailed, Dest(e.op), e.point), plotted)
  }

  /** The label map after some operations holds each label once, at the point `PointOf`
      gives it, and "*d,*o" has been added once a shared Picking point was seen. */
  ghost predicate LabelInvariant(state: LabelState, entries: seq<Entry>, shared: bool)
  {
    && DistinctKeys(state.0)
    && (state.1 <==> FirstPoint(entries, shared, Shared).Some?)
    && forall l :: Lookup(state.0, l) == PointOf(entries, shared, l)
  }

  /** The label map's entry for l after one more operation. */
  lemma LabelStepLookup(state: LabelState, entries: seq<Entry>, e: Entry, shared: bool, l: Label)
    requires LabelInvariant(state, entries, shared)
    ensures Lookup(LabelStep(state, e, shared).0, l) == PointOf(entries + [e], shared, l)
  {
    PointOfSnoc(entries, shared, l, e);
    assert Lookup(state.0, l) == PointOf(entries, shared, l);
    if e.area.Storage? || e.area == InboundDocks {
      PutLookup(state.0, Origin(e.op), e.point, l);
    } else if e.area == Picking {
      if shared && !state.1 {
        PutLookup(state.0, Shared, e.point, l);
      } else if !shared {
        PutLookup(state.0, Dest(e.op), e.point, l);
        PutLookup(Put(state.0, Dest(e.op), e.point), Origin(e.op + 1), e.point, l);
      }
    } else {
      PutLookup(state.0, Dest(e.op), e.point, l);
    }
  }

  lemma LabelStepDistinct(state: LabelState, e: Entry, shared: bool)
    requires DistinctKeys(state.0)
    ensures DistinctKeys(LabelStep(state, e, shared).0)
  {
    if e.area.Storage? || e.area == InboundDocks {
      PutDistinct(state.0, Origin(e.op), e.point);
    } else if e.area == Picking {
      if shared && !state.1 {
        PutDistinct(state.0, Shared, e.point);
      } else if !shared {
        PutDistinct(state.0, Dest(e.op), e.point);
        PutDistinct(Put(state.0, Dest(e.op), e.point), Origin(e.op + 1), e.point);
      }
    } else {
      PutDistinct(state.0, Dest(e.op), e.point);
    }
  }

  lemma LabelStepInvariant(state: LabelState, entries: seq<Entry>, e: Entry, shared: bool)
    requires LabelInvariant(state, entries, shared)
    ensures LabelInvariant(LabelStep(state, e, shared), entries + [e], shared)
  {
    FirstPointSnoc(entries, shared, Shared, e);
    LabelStepDistinct(state, e, shared);
    forall l
      ensures Lookup(LabelStep(state, e, shared).0, l) == PointOf(entries + [e], shared, l)
    {
      LabelStepLookup(state, entries, e, shared, l);
    }
  }

  /** The sort key of `coordenadas_detalhadas`: the number before the suffix ("*d,*o" counts
      as 0), then 0 for an origin and 1 for a destination. The pair (n, b) is encoded as
      2n + b, which orders labels exactly as Python orders the pairs. */
  function Rank(l: Label): int
  {
    match l
    case Shared => 0
    case Origin(n) => 2 * n
    case Dest(n) => 2 * n + 1
  }

  /** Two labels share a sort key only when they are "*d,*o" and "0o". */
  lemma RankTies(a: Label, b: Label)
    requires a != b && Rank(a) == Rank(b)
    ensures a == Shared || b == Shared
    ensures a == Origin(0) || b == Origin(0)
  {
  }

  /** `coordenadas_ordenadas`: the label map rebuilt in the order of its sorted labels. */
  method OrderLabels(detailed: Dict<Label, Point>) returns (ordered: Dict<Label, Point>)
    requires DistinctKeys(detailed)
    ensures Keys(ordered) == SortBy(Keys(detailed), Rank)
    ensures DistinctKeys(ordered)
    ensures forall l :: Lookup(ordered, l) == Lookup(detailed, l)
  {
    var keys := SortBy(Keys(detailed), Rank);
    SortedKeys(detailed, Rank);
    assert forall i :: 0 <= i < |keys| ==> keys[i] in keys;
    ordered := Rebuild(detailed, keys, (p: Point) => p);
  }

  /** The label part of `plotar_layout_com_pontos`: every label the placed operations name,
      each once, at the point of its last operation ("*d,*o" at the first Picking point),
      sorted by number with the origin first. */
  method LabelMap(areaPoints: AreaPoints, shared: bool) returns (ordered: Dict<Label, Point>)
    ensures DistinctKeys(ordered)
    ensures SortedBy(Keys(ordered), Rank)
    ensures forall l :: Lookup(ordered, l) == PointOf(Entries(areaPoints), shared, l)
  {
    var detailed: Dict<Label, Point> := [];
    var plotted := false;
    var i := 0;
    while i < |areaPoints|
      invariant i <= |areaPoints|
      invariant LabelInvariant((detailed, plotted), Entries(areaPoints[..i]), shared)
    {
      var (area, points) := areaPoints[i];
      var j := 0;
      assert Entries(areaPoints[..i]) + Row(area, points[..j]) == Entries(areaPoints[..i]);
      while j < |points|
        invariant j <= |points|
        invariant LabelInvariant((detailed, plotted), Entries(areaPoints[..i]) + Row(area, points[..j]), shared)
      {
        var (op, p) := points[j];
        ghost var before := (detailed, plotted);
        ghost var seen := Entries(areaPoints[..i]) + Row(area, points[..j]);
        if area.Storage? || area == InboundDocks {
          detailed := Put(detailed, Origin(op), p);
        } else if area == Picking {
          if shared && !plotted {
            detailed := Put(detailed, Shared, p);
            plotted := true;
          } else if !shared {
            detailed := Put(detailed, Dest(op), p);
            detailed := Put(detailed, Origin(op + 1), p);
          }
        } else {
          detailed := Put(detailed, Dest(op), p);
        }
        assert (detailed, plotted) == LabelStep(before, Entry(area, op, p), shared);
        LabelStepInvariant(before, seen, Entry(area, op, p), shared);
        RowSnoc(area, points, j);
        assert seen + [Entry(area, op, p)] == Entries(areaPoints[..i]) + Row(area, points[..j + 1]);
        j := j + 1;
      }
      assert points[..j] == points;
      EntriesSnoc(areaPoints, i);
      i := i + 1;
    }
    assert areaPoints[..i] == areaPoints;
    ordered := OrderLabels(detailed);
  }
}
