/** `elegibilidade_maquinas`: which forklifts may perform each operation, and which truck
    the operation belongs to. Each forklift joins as many of the three machine classes
    ('Docas entrada', 'Estoque', 'Picking') as its area count says; an operation may be done
    by any forklift of the class its area merges into. */
module Eligibility {
  import opened Wrappers
  import opened Seqs
  import opened Dicts
  import opened Numbers
  import opened Rand
  import opened Areas
  import opened Sorting

  /** The keys of `maquinas_por_tipo` and of `maquinas_alocadas`. */
  datatype Kind = DockKind | StorageKind | PickingKind

  /** `list(maquinas_por_tipo.keys())`, the population each forklift's classes are drawn from. */
  const Kinds: seq<Kind> := [DockKind, StorageKind, PickingKind]

  /** 'Docas saída' merges into Picking and every storage area into 'Estoque'. */
  function Merge(a: Area): Kind
  {
    match a
    case InboundDocks => DockKind
    case Storage(_) => StorageKind
    case Picking => PickingKind
    case OutboundDocks => PickingKind
  }

  // ---------------------------------------------------------------------------------------
  // Machines per class

  /** `max(1, int(p * n))`. */
  function Share(p: real, n: nat): int
  {
    Max(1, Trunc(p * n as real))
  }

  /** `maquinas_por_tipo` after its two adjusting loops: the inbound and storage shares are
      kept, and the Picking count takes up the difference to the number of machines. */
  method MachinesPerKind(n: nat, pDock: real, pStorage: real, pPicking: real)
      returns (dock: int, storage: int, picking: int)
    ensures dock == Share(pDock, n) && storage == Share(pStorage, n)
    ensures dock >= 1 && storage >= 1
    ensures dock + storage + picking == n
  {
    dock, storage, picking := Share(pDock, n), Share(pStorage, n), Share(pPicking, n);
    var total := dock + storage + picking;
    ghost var start := total;
    while total < n
      invariant total == dock + storage + picking
      invariant start <= n ==> total <= n
      invariant start > n ==> total == start
      decreases n - total
    {
      picking := picking + 1;
      total := total + 1;
    }
    while total > n
      invariant total == dock + storage + picking
      invariant total >= n
      decreases total - n
    {
      picking := picking - 1;
      total := total - 1;
    }
  }

  // ---------------------------------------------------------------------------------------
  // Rosters

  /** `maquinas_alocadas`: the 0-based numbers of the forklifts of each class. */
  datatype Rosters = Rosters(dock: seq<int>, storage: seq<int>, picking: seq<int>)

  function Roster(r: Rosters, k: Kind): seq<int>
  {
    match k
    case DockKind => r.dock
    case StorageKind => r.storage
    case PickingKind => r.picking
  }

  /** `maquinas_alocadas[k].append(x)`. */
  function Add(r: Rosters, k: Kind, x: int): (r': Rosters)
    ensures Roster(r', k) == Roster(r, k) + [x]
    ensures forall k' :: k' != k ==> Roster(r', k') == Roster(r, k')
  {
    match k
    case DockKind => r.(dock := r.dock + [x])
    case StorageKind => r.(storage := r.storage + [x])
    case PickingKind => r.(picking := r.picking + [x])
  }

  /** Adding x to every class of ks. */
  function AddAll(r: Rosters, ks: seq<Kind>, x: int): Rosters
  {
    if |ks| == 0 then r else Add(AddAll(r, ks[..|ks| - 1], x), ks[|ks| - 1], x)
  }

  lemma {:induction false} AddAllMembers(r: Rosters, ks: seq<Kind>, x: int, k: Kind, y: int)
    ensures y in Roster(AddAll(r, ks, x), k) <==> y in Roster(r, k) || (y == x && k in ks)
  {
    if |ks| > 0 {
      var init := ks[..|ks| - 1];
      AddAllMembers(r, init, x, k, y);
      assert ks == init + [ks[|ks| - 1]];
    }
  }

  /** `random.sample(list(maquinas_por_tipo.keys()), q)` made with the draw stream of one
      forklift; the call raises unless 0 <= q <= 3. */
  function Drawn(q: int, draw: nat -> nat): seq<Kind>
  {
    if 0 <= q <= 3 then Sample(Kinds, q, draw) else []
  }

  /** The classes each forklift m of class count q draws, with the stream `draws(m)`. */
  function Picks(draws: int -> (nat -> nat)): (int, int) -> seq<Kind>
  {
    (m, q) => Drawn(q, draws(m))
  }

  /** A valid count q draws q distinct classes. */
  lemma DrawnShape(q: int, draw: nat -> nat)
    requires 0 <= q <= 3
    ensures |Drawn(q, draw)| == q && Distinct(Drawn(q, draw))
    ensures |Elements(Drawn(q, draw))| == q
    ensures forall k :: k in Drawn(q, draw) ==> k in Kinds
  {
    KindsDistinct();
    SampleShape(Kinds, q, draw);
  }

  lemma KindsDistinct()
    ensures Distinct(Kinds)
  {
  }

  /** The class count of some entry of the classification is not a valid sample size. */
  predicate SomeBadCount(classes: Dict<int, int>)
  {
    exists i :: 0 <= i < |classes| && (classes[i].1 < 0 || classes[i].1 > 3)
  }

  /** The rosters after the forklifts of the classification, in its order: forklift m, of
      class count q, joins the classes `pick(m, q)`. */
  function BuildRosters(classes: Dict<int, int>, pick: (int, int) -> seq<Kind>): Result<Rosters>
  {
    if |classes| == 0 then Success(Rosters([], [], []))
    else
      var (m, q) := classes[|classes| - 1];
      var before := BuildRosters(classes[..|classes| - 1], pick);
      if before.Failure? then before
      else if q < 0 || q > 3 then Failure(SampleLargerThanPopulation)
      else Success(AddAll(before.value, pick(m, q), m - 1))
  }

  lemma {:induction false} RostersFailureSticks(classes: Dict<int, int>, pick: (int, int) -> seq<Kind>, i: nat)
    requires i <= |classes| && BuildRosters(classes[..i], pick).Failure?
    ensures BuildRosters(classes, pick) == BuildRosters(classes[..i], pick)
    decreases |classes| - i
  {
    if i < |classes| {
      assert classes[..i + 1][..i] == classes[..i];
      RostersFailureSticks(classes, pick, i + 1);
    } else {
      assert classes[..i] == classes;
    }
  }

  /** Some entry of the classification, for forklift x + 1, drew class k. */
  predicate Joined(classes: Dict<int, int>, pick: (int, int) -> seq<Kind>, k: Kind, x: int)
  {
    if |classes| == 0 then false
    else
      var (m, q) := classes[|classes| - 1];
      Joined(classes[..|classes| - 1], pick, k, x) || (x == m - 1 && k in pick(m, q))
  }

  /** Without repeated forklifts, forklift m - 1 of entry i joined k exactly when entry i drew k. */
  lemma {:induction false} JoinedAt(classes: Dict<int, int>, pick: (int, int) -> seq<Kind>, k: Kind, i: nat)
    requires DistinctKeys(classes) && i < |classes|
    ensures Joined(classes, pick, k, classes[i].0 - 1) <==> k in pick(classes[i].0, classes[i].1)
  {
    var n := |classes| - 1;
    var init := classes[..n];
    assert Keys(init) == Keys(classes)[..n];
    if i < n {
      assert init[i] == classes[i];
      JoinedAt(init, pick, k, i);
      assert Keys(classes)[i] == classes[i].0 && Keys(classes)[n] == classes[n].0;
    } else {
      JoinedAbsent(init, pick, k, classes[i].0);
    }
  }

  /** A forklift the classification does not list joined no class. */
  lemma {:induction false} JoinedAbsent(classes: Dict<int, int>, pick: (int, int) -> seq<Kind>, k: Kind, m: int)
    requires !HasKey(classes, m)
    ensures !Joined(classes, pick, k, m - 1)
  {
    if |classes| > 0 {
      var n := |classes| - 1;
      assert forall j :: 0 <= j < n ==> classes[..n][j] == classes[j];
      JoinedAbsent(classes[..n], pick, k, m);
    }
  }

  /** Forklift x belongs to class k exactly when some entry of the classification, for
      forklift x + 1, drew k. */
  ghost predicate RostersHold(r: Rosters, classes: Dict<int, int>, pick: (int, int) -> seq<Kind>)
  {
    forall k, x :: x in Roster(r, k) <==> Joined(classes, pick, k, x)
  }

  lemma RostersStep(r: Rosters, classes: Dict<int, int>, pick: (int, int) -> seq<Kind>)
    requires |classes| > 0
    requires RostersHold(r, classes[..|classes| - 1], pick)
    ensures var (m, q) := classes[|classes| - 1];
      RostersHold(AddAll(r, pick(m, q), m - 1), classes, pick)
  {
    var (m, q) := classes[|classes| - 1];
    forall k, x
      ensures x in Roster(AddAll(r, pick(m, q), m - 1), k) <==> Joined(classes, pick, k, x)
    {
      AddAllMembers(r, pick(m, q), m - 1, k, x);
    }
  }

  /** The rosters are built unless some class count is not a valid sample size, and then
      hold exactly the forklifts that drew each class. */
  lemma {:induction false} RostersShape(classes: Dict<int, int>, pick: (int, int) -> seq<Kind>)
    ensures BuildRosters(classes, pick).Failure? <==> SomeBadCount(classes)
    ensures BuildRosters(classes, pick).Success? ==> RostersHold(BuildRosters(classes, pick).value, classes, pick)
  {
    if |classes| > 0 {
      var n := |classes| - 1;
      var init := classes[..n];
      RostersShape(init, pick);
      assert forall i :: 0 <= i < n ==> init[i] == classes[i];
      assert SomeBadCount(classes) <==> SomeBadCount(init) || classes[n].1 < 0 || classes[n].1 > 3;
      if !SomeBadCount(classes) {
        RostersStep(BuildRosters(init, pick).value, classes, pick);
      }
    }
  }

  /** A forklift belongs to exactly the classes it drew. */
  lemma ClassesOf(classes: Dict<int, int>, pick: (int, int) -> seq<Kind>, i: nat)
    requires DistinctKeys(classes) && !SomeBadCount(classes) && i < |classes|
    requires forall k :: k in pick(classes[i].0, classes[i].1) ==> k in Kinds
    ensures BuildRosters(classes, pick).Success?
    ensures var r := BuildRosters(classes, pick).value;
      (set k | k in Kinds && classes[i].0 - 1 in Roster(r, k)) == Elements(pick(classes[i].0, classes[i].1))
  {
    RostersShape(classes, pick);
    var r := BuildRosters(classes, pick).value;
    forall k | k in Kinds
      ensures classes[i].0 - 1 in Roster(r, k) <==> k in pick(classes[i].0, classes[i].1)
    {
      JoinedAt(classes, pick, k, i);
    }
  }

  /** A forklift whose class count is q belongs to exactly the classes it drew, and there are
      q of them. */
  lemma ClassesOfMachine(classes: Dict<int, int>, draws: int -> (nat -> nat), i: nat)
    requires DistinctKeys(classes) && !SomeBadCount(classes) && i < |classes|
    ensures BuildRosters(classes, Picks(draws)).Success?
    ensures var r := BuildRosters(classes, Picks(draws)).value;
      (set k | k in Kinds && classes[i].0 - 1 in Roster(r, k)) == Elements(Drawn(classes[i].1, draws(classes[i].0)))
    ensures |Elements(Drawn(classes[i].1, draws(classes[i].0)))| == classes[i].1
  {
    var (m, q) := classes[i];
    assert 0 <= q <= 3;
    DrawnShape(q, draws(m));
    assert Picks(draws)(m, q) == Drawn(q, draws(m));
    ClassesOf(classes, Picks(draws), i);
  }

  /** The roster loop of `elegibilidade_maquinas`, with `pick(m, q)` standing for the sample
      of forklift m. */
  method AllocateRosters(classes: Dict<int, int>, pick: (int, int) -> seq<Kind>) returns (r: Result<Rosters>)
    ensures r == BuildRosters(classes, pick)
  {
    var rosters := Rosters([], [], []);
    var i := 0;
    while i < |classes|
      invariant i <= |classes|
      invariant BuildRosters(classes[..i], pick) == Success(rosters)
    {
      var (m, q) := classes[i];
      ClassStep(classes, pick, i, rosters);
      if q < 0 || q > 3 {
        RostersFailureSticks(classes, pick, i + 1);
        return Failure(SampleLargerThanPopulation);
      }
      var kinds := pick(m, q);
      rosters := AddKinds(rosters, kinds, m - 1);
      i := i + 1;
    }
    assert classes[..i] == classes;
    return Success(rosters);
  }

  /** One more forklift class: a bad count fails, a good one adds the sampled kinds. */
  lemma ClassStep(classes: Dict<int, int>, pick: (int, int) -> seq<Kind>, i: nat, before: Rosters)
    requires i < |classes| && BuildRosters(classes[..i], pick) == Success(before)
    ensures var (m, q) := classes[i];
      BuildRosters(classes[..i + 1], pick)
        == if q < 0 || q > 3 then Failure(SampleLargerThanPopulation)
           else Success(AddAll(before, pick(m, q), m - 1))
  {
    assert classes[..i + 1][..i] == classes[..i];
  }

  /** `for tipo in tipos: maquinas_por_tipo[tipo].append(m - 1)`. */
  method AddKinds(rosters: Rosters, kinds: seq<Kind>, x: int) returns (r: Rosters)
    ensures r == AddAll(rosters, kinds, x)
  {
    r := rosters;
    var j := 0;
    while j < |kinds|
      invariant j <= |kinds|
      invariant r == AddAll(rosters, kinds[..j], x)
    {
      assert kinds[..j + 1][..j] == kinds[..j];
      r := Add(r, kinds[j], x);
      j := j + 1;
    }
    assert kinds[..j] == kinds;
  }

  // ---------------------------------------------------------------------------------------
  // Trucks

  /** The number of the first truck, in order, whose operation list holds op. */
  function FirstTruck(trucks: seq<seq<int>>, op: int): (r: Option<int>)
    ensures r.None? <==> forall t :: 0 <= t < |trucks| ==> op !in trucks[t]
    ensures r.Some? ==> 1 <= r.value <= |trucks| && op in trucks[r.value - 1]
    ensures r.Some? ==> forall t :: 0 <= t < r.value - 1 ==> op !in trucks[t]
  {
    if |trucks| == 0 then None
    else if op in trucks[0] then Some(1)
    else
      var rest := FirstTruck(trucks[1..], op);
      assert forall t :: 1 <= t < |trucks| ==> trucks[t] == trucks[1..][t - 1];
      if rest.None? then None else Some(rest.value + 1)
  }

  /** The search loop with its `break`. */
  method FindTruck(trucks: seq<seq<int>>, op: int) returns (r: Option<int>)
    ensures r == FirstTruck(trucks, op)
  {
    var t := 0;
    while t < |trucks|
      invariant t <= |trucks|
      invariant forall u :: 0 <= u < t ==> op !in trucks[u]
    {
      if op in trucks[t] {
        return Some(t + 1);
      }
      t := t + 1;
    }
    return None;
  }

  // ---------------------------------------------------------------------------------------
  // The eligibility matrix

  /** One operation of one area, in the iteration order of `operacoes_por_area`. */
  datatype Occurrence = Occurrence(area: Area, op: int)

  function Row(area: Area, ops: seq<int>): (r: seq<Occurrence>)
    ensures |r| == |ops|
    ensures forall j :: 0 <= j < |r| ==> r[j] == Occurrence(area, ops[j])
  {
    seq(|ops|, j requires 0 <= j < |ops| => Occurrence(area, ops[j]))
  }

  function Occurrences(areaOps: Dict<Area, seq<int>>): seq<Occurrence>
  {
    if |areaOps| == 0 then []
    else
      var last := areaOps[|areaOps| - 1];
      Occurrences(areaOps[..|areaOps| - 1]) + Row(last.0, last.1)
  }

  lemma OccurrencesSnoc(areaOps: Dict<Area, seq<int>>, i: nat)
    requires i < |areaOps|
    ensures Occurrences(areaOps[..i + 1]) == Occurrences(areaOps[..i]) + Row(areaOps[i].0, areaOps[i].1)
  {
    assert areaOps[..i + 1][..i] == areaOps[..i];
  }

  lemma RowSnoc(area: Area, ops: seq<int>, j: nat)
    requires j < |ops|
    ensures Row(area, ops[..j + 1]) == Row(area, ops[..j]) + [Occurrence(area, ops[j])]
  {
  }

  /** Some area lists op. */
  predicate Listed(seen: seq<Occurrence>, op: int)
  {
    exists i :: 0 <= i < |seen| && seen[i].op == op
  }

  /** Machine x (0-based) belongs to the class of some area listing op. */
  predicate Marked(seen: seq<Occurrence>, r: Rosters, op: int, x: int)
  {
    exists i :: 0 <= i < |seen| && seen[i].op == op && x in Roster(r, Merge(seen[i].area))
  }

  /** The 0/1 list of an operation: 1 for every machine of a class of an area listing it. */
  function Column(seen: seq<Occurrence>, r: Rosters, op: int, n: nat): (c: seq<int>)
    ensures |c| == n
    ensures forall x :: 0 <= x < n ==> c[x] == if Marked(seen, r, op, x) then 1 else 0
  {
    seq(n, x => if Marked(seen, r, op, x) then 1 else 0)
  }

  lemma MarkedSnoc(seen: seq<Occurrence>, o: Occurrence, r: Rosters, op: int, x: int)
    ensures Marked(seen + [o], r, op, x) <==>
      Marked(seen, r, op, x) || (o.op == op && x in Roster(r, Merge(o.area)))
  {
    var s := seen + [o];
    assert forall i :: 0 <= i < |seen| ==> s[i] == seen[i];
    assert s[|seen|] == o;
  }

  /** An entry of `elegibilidade` before the final translation. */
  datatype Cell = Cell(truck: Option<int>, bins: seq<int>)

  /** An entry of the result: the truck and the eligible machines (1-based). */
  datatype Eligible = Eligible(truck: Option<int>, machines: seq<int>)

  /** The matrix after the initial loop over `seen`: one blank entry per listed operation. */
  ghost predicate InitHolds(cells: Dict<int, Cell>, seen: seq<Occurrence>, n: nat)
  {
    && DistinctKeys(cells)
    && (forall op :: HasKey(cells, op) <==> Listed(seen, op))
    && (forall i :: 0 <= i < |cells| ==> cells[i].1 == Cell(None, seq(n, _ => 0)))
  }

  lemma InitStep(cells: Dict<int, Cell>, seen: seq<Occurrence>, o: Occurrence, n: nat)
    requires InitHolds(cells, seen, n)
    ensures InitHolds(Put(cells, o.op, Cell(None, seq(n, _ => 0))), seen + [o], n)
  {
    var blank := Cell(None, seq(n, _ => 0));
    var d := Put(cells, o.op, blank);
    PutDistinct(cells, o.op, blank);
    var s := seen + [o];
    assert forall i :: 0 <= i < |seen| ==> s[i] == seen[i];
    assert s[|seen|] == o;
    forall op
      ensures HasKey(d, op) <==> Listed(s, op)
    {
      PutKeySet(cells, o.op, blank);
      KeySetMembership(cells, op);
      KeySetMembership(d, op);
    }
    forall i | 0 <= i < |d|
      ensures d[i].1 == blank
    {
      if d[i].0 != o.op {
        PutOther(cells, o.op, blank, i);
      } else {
        PutLookup(cells, o.op, blank, o.op);
        LookupAt(d, i);
      }
    }
  }

  /** The matrix after the marking loop over `seen`, of all operations `all`: every listed
      operation has its truck once seen, and its column so far. */
  ghost predicate MarkHolds(cells: Dict<int, Cell>, all: seq<Occurrence>, seen: seq<Occurrence>,
                            r: Rosters, trucks: seq<seq<int>>, n: nat)
  {
    && DistinctKeys(cells)
    && (forall op :: HasKey(cells, op) <==> Listed(all, op))
    && (forall i :: 0 <= i < |cells| ==>
          cells[i].1 == Cell(if Listed(seen, cells[i].0) then FirstTruck(trucks, cells[i].0) else None,
                             Column(seen, r, cells[i].0, n)))
  }

  lemma MarkStart(cells: Dict<int, Cell>, all: seq<Occurrence>, r: Rosters, trucks: seq<seq<int>>, n: nat)
    requires InitHolds(cells, all, n)
    ensures MarkHolds(cells, all, [], r, trucks, n)
  {
    forall i | 0 <= i < |cells|
      ensures Column([], r, cells[i].0, n) == seq(n, _ => 0)
    {
    }
  }

  lemma MarkStep(cells: Dict<int, Cell>, all: seq<Occurrence>, seen: seq<Occurrence>, o: Occurrence,
                 r: Rosters, trucks: seq<seq<int>>, n: nat, truck: Option<int>, bins: seq<int>)
    requires MarkHolds(cells, all, seen, r, trucks, n) && Listed(all, o.op)
    requires truck == if FirstTruck(trucks, o.op).Some? then FirstTruck(trucks, o.op) else Lookup(cells, o.op).value.truck
    requires bins == Column(seen + [o], r, o.op, n)
    ensures MarkHolds(Put(cells, o.op, Cell(truck, bins)), all, seen + [o], r, trucks, n)
  {
    var cell := Cell(truck, bins);
    var d := Put(cells, o.op, cell);
    var s := seen + [o];
    PutDistinct(cells, o.op, cell);
    assert forall i :: 0 <= i < |seen| ==> s[i] == seen[i];
    assert s[|seen|] == o;
    forall op
      ensures HasKey(d, op) <==> Listed(all, op)
    {
      PutKeySet(cells, o.op, cell);
      KeySetMembership(cells, op);
      KeySetMembership(d, op);
    }
    forall i | 0 <= i < |d|
      ensures d[i].1 == Cell(if Listed(s, d[i].0) then FirstTruck(trucks, d[i].0) else None,
                             Column(s, r, d[i].0, n))
    {
      if d[i].0 != o.op {
        PutOther(cells, o.op, cell, i);
        forall x | 0 <= x < n
          ensures Marked(s, r, d[i].0, x) == Marked(seen, r, d[i].0, x)
        {
          MarkedSnoc(seen, o, r, d[i].0, x);
        }
      } else {
        PutLookup(cells, o.op, cell, o.op);
        LookupAt(d, i);
        var at := IndexOf(cells, o.op);
        LookupAt(cells, at);
      }
    }
  }

  /** `[i + 1 for i, ativo in enumerate(bins) if ativo == 1]`. */
  function Active(bins: seq<int>): (r: seq<int>)
    ensures forall m :: m in r <==> 1 <= m <= |bins| && bins[m - 1] == 1
    ensures StrictlyIncreasing(r)
  {
    if |bins| == 0 then []
    else
      var n := |bins| - 1;
      var rest := Active(bins[..n]);
      assert forall j :: 0 <= j < n ==> bins[..n][j] == bins[j];
      assert forall j :: 0 <= j < |rest| ==> rest[j] <= n by {
        assert forall j :: 0 <= j < |rest| ==> rest[j] in rest;
      }
      if bins[n] == 1 then rest + [n + 1] else rest
  }

  /** The initial loop: one blank entry per listed operation. */
  method InitCells(areaOps: Dict<Area, seq<int>>, n: nat) returns (cells: Dict<int, Cell>)
    ensures InitHolds(cells, Occurrences(areaOps), n)
  {
    cells := [];
    var i := 0;
    while i < |areaOps|
      invariant i <= |areaOps|
      invariant InitHolds(cells, Occurrences(areaOps[..i]), n)
    {
      var (area, ops) := areaOps[i];
      var j := 0;
      assert Occurrences(areaOps[..i]) + Row(area, ops[..j]) == Occurrences(areaOps[..i]);
      while j < |ops|
        invariant j <= |ops|
        invariant InitHolds(cells, Occurrences(areaOps[..i]) + Row(area, ops[..j]), n)
      {
        InitStep(cells, Occurrences(areaOps[..i]) + Row(area, ops[..j]), Occurrence(area, ops[j]), n);
        RowSnoc(area, ops, j);
        assert Occurrences(areaOps[..i]) + Row(area, ops[..j + 1])
            == Occurrences(areaOps[..i]) + Row(area, ops[..j]) + [Occurrence(area, ops[j])];
        cells := Put(cells, ops[j], Cell(None, seq(n, _ => 0)));
        j := j + 1;
      }
      assert ops[..j] == ops;
      OccurrencesSnoc(areaOps, i);
      i := i + 1;
    }
    assert areaOps[..i] == areaOps;
  }

  /** One pass of the marking loop: the operation op of an area of class `Merge(area)` gets
      its truck, when one lists it, and every forklift of that class. */
  method MarkOperation(cells: Dict<int, Cell>, ghost all: seq<Occurrence>, ghost seen: seq<Occurrence>,
                       area: Area, op: int, rosters: Rosters, trucks: seq<seq<int>>, n: nat)
      returns (cells': Dict<int, Cell>)
    requires MarkHolds(cells, all, seen, rosters, trucks, n) && Listed(all, op)
    requires forall k, x :: x in Roster(rosters, k) ==> 0 <= x < n
    ensures MarkHolds(cells', all, seen + [Occurrence(area, op)], rosters, trucks, n)
  {
    KeySetMembership(cells, op);
    var cell := Lookup(cells, op).value;
    LookupAt(cells, IndexOf(cells, op));
    var found := FindTruck(trucks, op);
    var truck := if found.Some? then found else cell.truck;
    var bins := cell.bins;
    var roster := Roster(rosters, Merge(area));
    var k := 0;
    while k < |roster|
      invariant k <= |roster|
      invariant |bins| == n
      invariant forall x :: 0 <= x < n ==>
        bins[x] == if Marked(seen, rosters, op, x) || x in roster[..k] then 1 else 0
    {
      assert roster[..k + 1] == roster[..k] + [roster[k]];
      assert roster[k] in Roster(rosters, Merge(area));
      bins := bins[roster[k] := 1];
      k := k + 1;
    }
    assert roster[..k] == roster;
    forall x | 0 <= x < n
      ensures bins[x] == Column(seen + [Occurrence(area, op)], rosters, op, n)[x]
    {
      MarkedSnoc(seen, Occurrence(area, op), rosters, op, x);
    }
    MarkStep(cells, all, seen, Occurrence(area, op), rosters, trucks, n, truck, bins);
    cells' := Put(cells, op, Cell(truck, bins));
  }

  /** The marking loop over every area and every operation it lists. */
  method MarkCells(cells0: Dict<int, Cell>, areaOps: Dict<Area, seq<int>>, rosters: Rosters,
                   trucks: seq<seq<int>>, n: nat)
      returns (cells: Dict<int, Cell>)
    requires InitHolds(cells0, Occurrences(areaOps), n)
    requires forall k, x :: x in Roster(rosters, k) ==> 0 <= x < n
    ensures MarkHolds(cells, Occurrences(areaOps), Occurrences(areaOps), rosters, trucks, n)
  {
    ghost var all := Occurrences(areaOps);
    cells := cells0;
    MarkStart(cells, all, rosters, trucks, n);
    var i := 0;
    while i < |areaOps|
      invariant i <= |areaOps|
      invariant MarkHolds(cells, all, Occurrences(areaOps[..i]), rosters, trucks, n)
    {
      var (area, ops) := areaOps[i];
      var j := 0;
      assert Occurrences(areaOps[..i]) + Row(area, ops[..j]) == Occurrences(areaOps[..i]);
      while j < |ops|
        invariant j <= |ops|
        invariant MarkHolds(cells, all, Occurrences(areaOps[..i]) + Row(area, ops[..j]), rosters, trucks, n)
      {
        ghost var seen := Occurrences(areaOps[..i]) + Row(area, ops[..j]);
        assert Listed(all, ops[j]) by {
          OccurrencesSnoc(areaOps, i);
          OccurrencesPrefix(areaOps, i + 1);
          var pre := Occurrences(areaOps[..i]);
          assert Occurrences(areaOps[..i + 1])[|pre| + j] == Occurrence(area, ops[j]);
        }
        cells := MarkOperation(cells, all, seen, area, ops[j], rosters, trucks, n);
        RowSnoc(area, ops, j);
        assert Occurrences(areaOps[..i]) + Row(area, ops[..j + 1]) == seen + [Occurrence(area, ops[j])];
        j := j + 1;
      }
      assert ops[..j] == ops;
      OccurrencesSnoc(areaOps, i);
      i := i + 1;
    }
    assert areaOps[..i] == areaOps;
  }

  /** Every forklift of a roster is one of the classification, numbered from zero. */
  lemma {:induction false} JoinedBounds(classes: Dict<int, int>, pick: (int, int) -> seq<Kind>, n: nat, k: Kind, x: int)
    requires forall i :: 0 <= i < |classes| ==> 1 <= classes[i].0 <= n
    requires Joined(classes, pick, k, x)
    ensures 0 <= x < n
  {
    var last := |classes| - 1;
    if x != classes[last].0 - 1 || k !in pick(classes[last].0, classes[last].1) {
      assert forall i :: 0 <= i < last ==> classes[..last][i] == classes[i];
      JoinedBounds(classes[..last], pick, n, k, x);
    }
  }

  /** `elegibilidade_maquinas`. */
  method Eligibility(n: nat, areaOps: Dict<Area, seq<int>>, trucks: seq<seq<int>>,
                     pDock: real, pStorage: real, pPicking: real,
                     classes: Dict<int, int>, draws: int -> (nat -> nat))
      returns (result: Result<Dict<int, Eligible>>)
    requires forall i :: 0 <= i < |classes| ==> 1 <= classes[i].0 <= n
    ensures result.Failure? <==> SomeBadCount(classes)
    ensures result.Success? ==> BuildRosters(classes, Picks(draws)).Success?
    ensures result.Success? && BuildRosters(classes, Picks(draws)).Success? ==>
      var r := result.value;
      var rosters := BuildRosters(classes, Picks(draws)).value;
      && DistinctKeys(r)
      && StrictlyIncreasing(Keys(r))
      && (forall op :: HasKey(r, op) <==> Listed(Occurrences(areaOps), op))
      && EligibleRows(r, Occurrences(areaOps), rosters, trucks, n)
  {
    var dock, storage, picking := MachinesPerKind(n, pDock, pStorage, pPicking);
    var cells := InitCells(areaOps, n);
    var pick := Picks(draws);
    var built := AllocateRosters(classes, pick);
    RostersShape(classes, pick);
    if built.Failure? {
      return Failure(built.error);
    }
    var rosters := built.value;
    forall k, x | x in Roster(rosters, k)
      ensures 0 <= x < n
    {
      JoinedBounds(classes, pick, n, k, x);
    }
    cells := MarkCells(cells, areaOps, rosters, trucks, n);
    var r := Translate(cells, Occurrences(areaOps), rosters, trucks, n);
    return Success(r);
  }

  /** The translation of the marked cells, in increasing operation order. */
  method Translate(cells: Dict<int, Cell>, ghost all: seq<Occurrence>, ghost rosters: Rosters,
                   ghost trucks: seq<seq<int>>, ghost n: nat)
      returns (r: Dict<int, Eligible>)
    requires MarkHolds(cells, all, all, rosters, trucks, n)
    ensures DistinctKeys(r)
    ensures StrictlyIncreasing(Keys(r))
    ensures forall op :: HasKey(r, op) <==> Listed(all, op)
    ensures EligibleRows(r, all, rosters, trucks, n)
  {
    var keys := SortedOperations(cells);
    var f := (c: Cell) => Eligible(c.truck, Active(c.bins));
    r := Rebuild(cells, keys, f);
    EligibleEntries(r, cells, keys, f, all, rosters, trucks, n);
  }

  /** `sorted(celulas)`: the operations of the cells, in increasing order. */
  method SortedOperations(cells: Dict<int, Cell>) returns (keys: seq<int>)
    requires DistinctKeys(cells)
    ensures Distinct(keys) && StrictlyIncreasing(keys)
    ensures forall k :: k in keys <==> HasKey(cells, k)
    ensures forall j :: 0 <= j < |keys| ==> HasKey(cells, keys[j])
  {
    keys := SortBy(Keys(cells), x => x);
    SortedKeys(cells, x => x);
    SortedDistinctIncreasing(keys);
    assert forall j :: 0 <= j < |keys| ==> keys[j] in keys;
  }

  /** Every operation listed by a prefix of the areas is listed by all of them. */
  lemma {:induction false} OccurrencesPrefix(areaOps: Dict<Area, seq<int>>, i: nat)
    requires i <= |areaOps|
    ensures forall op :: Listed(Occurrences(areaOps[..i]), op) ==> Listed(Occurrences(areaOps), op)
    decreases |areaOps| - i
  {
    if i < |areaOps| {
      OccurrencesSnoc(areaOps, i);
      OccurrencesPrefix(areaOps, i + 1);
      var pre := Occurrences(areaOps[..i]);
      var ext := Occurrences(areaOps[..i + 1]);
      assert forall j :: 0 <= j < |pre| ==> ext[j] == pre[j];
    } else {
      assert areaOps[..i] == areaOps;
    }
  }

  /** Reading the result's entries back from the finished matrix. */
  /** Every row names the first truck holding its operation and, in increasing order, exactly
      the machines 1..n that were marked for it. */
  ghost predicate EligibleRows(r: Dict<int, Eligible>, all: seq<Occurrence>, rosters: Rosters, trucks: seq<seq<int>>, n: nat)
  {
    && (forall i :: 0 <= i < |r| ==> r[i].1.truck == FirstTruck(trucks, r[i].0))
    && (forall i :: 0 <= i < |r| ==> StrictlyIncreasing(r[i].1.machines))
    && (forall i, m :: 0 <= i < |r| ==>
          (m in r[i].1.machines <==> 1 <= m <= n && Marked(all, rosters, r[i].0, m - 1)))
  }

  lemma EligibleEntries(r: Dict<int, Eligible>, cells: Dict<int, Cell>, keys: seq<int>, f: Cell -> Eligible,
                        all: seq<Occurrence>, rosters: Rosters, trucks: seq<seq<int>>, n: nat)
    requires MarkHolds(cells, all, all, rosters, trucks, n)
    requires forall c :: f(c) == Eligible(c.truck, Active(c.bins))
    requires forall k :: k in keys <==> HasKey(cells, k)
    requires Keys(r) == keys && DistinctKeys(r)
    requires forall k :: Lookup(r, k) == if k in keys then Some(f(Lookup(cells, k).value)) else None
    ensures EligibleRows(r, all, rosters, trucks, n)
    ensures forall op :: HasKey(r, op) <==> Listed(all, op)
  {
    forall op
      ensures HasKey(r, op) <==> Listed(all, op)
    {
      assert HasKey(r, op) <==> Lookup(r, op).Some?;
    }
    forall i | 0 <= i < |r|
      ensures r[i].1 == Eligible(FirstTruck(trucks, r[i].0), Active(Column(all, rosters, r[i].0, n)))
    {
      var op := r[i].0;
      LookupAt(r, i);
      assert Keys(r)[i] == op;
      var at := IndexOf(cells, op);
      LookupAt(cells, at);
      assert Listed(all, op);
    }
  }
}
