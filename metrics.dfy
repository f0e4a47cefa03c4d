/** The schedule metrics computed from a solver's result: from the assignment matrices
    `alpha`, the processing-time triples `p`, the completion times `t` and the due dates
    `d`, the makespan, the number of late trucks, the largest delay and the total delay. */
module Metrics {
  import opened Wrappers
  import opened Dicts
  import LogParser

  type Triple = LogParser.Triple

  // ---------------------------------------------------------------- processing times

  /** `{(op, machine): pt for op, machine, pt in p}`. */
  function ProcessingMap(p: seq<Triple>): Dict<(int, int), real>
  {
    if |p| == 0 then []
    else
      var last := p[|p| - 1];
      Put(ProcessingMap(p[..|p| - 1]), (last.0, last.1), last.2)
  }

  /** The time of the last triple for op on machine: a later triple overrides an earlier one. */
  function LastTime(p: seq<Triple>, op: int, machine: int): Option<real>
  {
    if |p| == 0 then None
    else if p[|p| - 1].0 == op && p[|p| - 1].1 == machine then Some(p[|p| - 1].2)
    else LastTime(p[..|p| - 1], op, machine)
  }

  /** The map holds, for each pair, the time of its last triple, and nothing for a pair
      without one. */
  lemma {:induction false} ProcessingMapLookup(p: seq<Triple>, op: int, machine: int)
    ensures Lookup(ProcessingMap(p), (op, machine)) == LastTime(p, op, machine)
  {
    if |p| > 0 {
      var last := p[|p| - 1];
      ProcessingMapLookup(p[..|p| - 1], op, machine);
      PutLookup(ProcessingMap(p[..|p| - 1]), (last.0, last.1), last.2, (op, machine));
    }
  }

  // ---------------------------------------------------------------- scheduled operations

  /** One entry of `operations_info`. */
  datatype Info = Info(operation: int, forklift: int, truck: int, start: real, processing: real, completion: real)

  /** The cell in row r and column c of the matrix stored under key: with `byForklift` the
      key is a forklift and the column a truck, otherwise the key is a truck and the column
      a forklift. A 1 makes an entry, unless the operation's time or its processing time on
      the forklift is missing. */
  function CellInfo(key: int, r: nat, c: nat, cell: int, times: Dict<(int, int), real>,
                    t: Dict<int, real>, byForklift: bool): Option<Info>
  {
    var op := r + 1;
    var forklift := if byForklift then key else c + 1;
    var truck := if byForklift then c + 1 else key;
    if cell != 1 then None
    else
      match Lookup(t, op)
      case None => None
      case Some(start) =>
        match Lookup(times, (op, forklift))
        case None => None
        case Some(proc) => Some(Info(op, forklift, truck, start, proc, start + proc))
  }

  /** The entries of the first n cells of row r. */
  function RowInfos(key: int, r: nat, row: seq<int>, n: nat, times: Dict<(int, int), real>,
                    t: Dict<int, real>, byForklift: bool): seq<Info>
    requires n <= |row|
  {
    if n == 0 then []
    else
      var cell := CellInfo(key, r, n - 1, row[n - 1], times, t, byForklift);
      RowInfos(key, r, row, n - 1, times, t, byForklift) + (if cell.Some? then [cell.value] else [])
  }

  /** The entries of the first k rows of a matrix, row by row. */
  function MatrixInfos(key: int, m: seq<seq<int>>, k: nat, times: Dict<(int, int), real>,
                       t: Dict<int, real>, byForklift: bool): seq<Info>
    requires k <= |m| && LogParser.Rectangular(m)
  {
    if k == 0 then []
    else MatrixInfos(key, m, k - 1, times, t, byForklift) + RowInfos(key, k - 1, m[k - 1], |m[0]|, times, t, byForklift)
  }

  /** The entries of the first k matrices, in the dictionary's order; a matrix without rows
      has no two-dimensional shape to unpack. */
  function InfosFrom(alpha: Dict<int, seq<seq<int>>>, k: nat, times: Dict<(int, int), real>,
                     t: Dict<int, real>, byForklift: bool): Result<seq<Info>>
    requires k <= |alpha| && LogParser.AllRectangular(alpha)
  {
    if k == 0 then Success([])
    else
      match InfosFrom(alpha, k - 1, times, t, byForklift)
      case Failure(e) => Failure(e)
      case Success(prev) =>
        if |alpha[k - 1].1| == 0 then Failure(NotAMatrix)
        else Success(prev + MatrixInfos(alpha[k - 1].0, alpha[k - 1].1, |alpha[k - 1].1|, times, t, byForklift))
  }

  /** `operations_info`: the matrices are keyed by forklift when there are no more forklifts
      than trucks, and by truck otherwise. */
  function Operations(nTrucks: int, nMachines: int, alpha: Dict<int, seq<seq<int>>>, p: seq<Triple>,
                      t: Dict<int, real>): Result<seq<Info>>
    requires LogParser.AllRectangular(alpha)
  {
    InfosFrom(alpha, |alpha|, ProcessingMap(p), t, nMachines <= nTrucks)
  }

  /** A matrix without rows ends the collection. */
  lemma {:induction false} InfosFailure(alpha: Dict<int, seq<seq<int>>>, j: nat, k: nat, times: Dict<(int, int), real>,
                                        t: Dict<int, real>, byForklift: bool)
    requires j <= k <= |alpha| && LogParser.AllRectangular(alpha)
    requires InfosFrom(alpha, j, times, t, byForklift).Failure?
    ensures InfosFrom(alpha, k, times, t, byForklift) == InfosFrom(alpha, j, times, t, byForklift)
    decreases k
  {
    if k > j {
      InfosFailure(alpha, j, k - 1, times, t, byForklift);
    }
  }

  /** One more matrix: a matrix without rows fails the collection, any other adds its
      entries. */
  lemma InfosFromStep(alpha: Dict<int, seq<seq<int>>>, e: nat, times: Dict<(int, int), real>,
                      t: Dict<int, real>, byForklift: bool, infos: seq<Info>)
    requires e < |alpha| && LogParser.AllRectangular(alpha)
    requires InfosFrom(alpha, e, times, t, byForklift) == Success(infos)
    ensures |alpha[e].1| == 0 ==> InfosFrom(alpha, e + 1, times, t, byForklift) == Failure(NotAMatrix)
    ensures |alpha[e].1| > 0 ==>
      InfosFrom(alpha, e + 1, times, t, byForklift) ==
      Success(infos + MatrixInfos(alpha[e].0, alpha[e].1, |alpha[e].1|, times, t, byForklift))
  {
  }

  /** The loops that fill `operations_info`. */
  method CollectOperations(nTrucks: int, nMachines: int, alpha: Dict<int, seq<seq<int>>>, p: seq<Triple>,
                           t: Dict<int, real>) returns (r: Result<seq<Info>>)
    requires LogParser.AllRectangular(alpha)
    ensures r == Operations(nTrucks, nMachines, alpha, p, t)
  {
    r := CollectInfos(alpha, ProcessingMap(p), t, nMachines <= nTrucks);
  }

  /** The loop over the matrices, with the processing times and the keying decided. */
  method CollectInfos(alpha: Dict<int, seq<seq<int>>>, times: Dict<(int, int), real>, t: Dict<int, real>,
                      byForklift: bool) returns (r: Result<seq<Info>>)
    requires LogParser.AllRectangular(alpha)
    ensures r == InfosFrom(alpha, |alpha|, times, t, byForklift)
  {
    var infos: seq<Info> := [];
    for e := 0 to |alpha|
      invariant InfosFrom(alpha, e, times, t, byForklift) == Success(infos)
    {
      var step := CollectStep(alpha, e, times, t, byForklift, infos);
      if step.Failure? {
        InfosFailure(alpha, e + 1, |alpha|, times, t, byForklift);
        return step;
      }
      infos := step.value;
    }
    return Success(infos);
  }

  /** The body of the loop over the matrices, for matrix e. */
  method CollectStep(alpha: Dict<int, seq<seq<int>>>, e: nat, times: Dict<(int, int), real>,
                     t: Dict<int, real>, byForklift: bool, infos: seq<Info>) returns (r: Result<seq<Info>>)
    requires e < |alpha| && LogParser.AllRectangular(alpha)
    requires InfosFrom(alpha, e, times, t, byForklift) == Success(infos)
    ensures r == InfosFrom(alpha, e + 1, times, t, byForklift)
  {
    var key := alpha[e].0;
    var matrix := alpha[e].1;
    InfosFromStep(alpha, e, times, t, byForklift, infos);
    if |matrix| == 0 {
      return Failure(NotAMatrix);
    }
    var found := CollectMatrix(key, matrix, times, t, byForklift);
    return Success(infos + found);
  }

  /** The loop over the rows of one matrix. */
  method CollectMatrix(key: int, matrix: seq<seq<int>>, times: Dict<(int, int), real>,
                       t: Dict<int, real>, byForklift: bool) returns (infos: seq<Info>)
    requires LogParser.Rectangular(matrix) && |matrix| > 0
    ensures infos == MatrixInfos(key, matrix, |matrix|, times, t, byForklift)
  {
    var numOperations, width := |matrix|, |matrix[0]|;
    infos := [];
    for row := 0 to numOperations
      invariant infos == MatrixInfos(key, matrix, row, times, t, byForklift)
    {
      var found := CollectRow(key, row, matrix[row], width, times, t, byForklift);
      infos := infos + found;
    }
  }

  /** The loop over the first `width` cells of row `row`. */
  method CollectRow(key: int, row: nat, cells: seq<int>, width: nat, times: Dict<(int, int), real>,
                    t: Dict<int, real>, byForklift: bool) returns (infos: seq<Info>)
    requires width <= |cells|
    ensures infos == RowInfos(key, row, cells, width, times, t, byForklift)
  {
    infos := [];
    for col := 0 to width
      invariant infos == RowInfos(key, row, cells, col, times, t, byForklift)
    {
      if cells[col] == 1 {
        var operation := row + 1;
        var forklift := if byForklift then key else col + 1;
        var truck := if byForklift then col + 1 else key;
        var start := Lookup(t, operation);
        var proc := Lookup(times, (operation, forklift));
        if start.None? || proc.None? {
          continue;
        }
        infos := infos + [Info(operation, forklift, truck, start.value, proc.value, start.value + proc.value)];
      }
    }
  }

  /** A cell contributes exactly when it holds 1 and both the operation's time and its
      processing time on the cell's forklift are known; the entry completes at their sum. */
  lemma CellContribution(key: int, r: nat, c: nat, cell: int, p: seq<Triple>, t: Dict<int, real>, byForklift: bool)
    ensures var forklift := if byForklift then key else c + 1;
      var info := CellInfo(key, r, c, cell, ProcessingMap(p), t, byForklift);
      && (info.Some? <==> cell == 1 && HasKey(t, r + 1) && LastTime(p, r + 1, forklift).Some?)
      && (info.Some? ==>
            && info.value.operation == r + 1
            && info.value.forklift == forklift
            && info.value.truck == (if byForklift then c + 1 else key)
            && Lookup(t, r + 1) == Some(info.value.start)
            && LastTime(p, r + 1, forklift) == Some(info.value.processing)
            && info.value.completion == info.value.start + info.value.processing)
  {
    ProcessingMapLookup(p, r + 1, if byForklift then key else c + 1);
  }

  lemma {:induction false} RowMembers(key: int, r: nat, row: seq<int>, n: nat, times: Dict<(int, int), real>,
                                      t: Dict<int, real>, byForklift: bool, x: Info)
    requires n <= |row|
    ensures x in RowInfos(key, r, row, n, times, t, byForklift) <==>
      exists c :: 0 <= c < n && CellInfo(key, r, c, row[c], times, t, byForklift) == Some(x)
  {
    if n > 0 {
      RowMembers(key, r, row, n - 1, times, t, byForklift, x);
    }
  }

  lemma {:induction false} MatrixMembers(key: int, m: seq<seq<int>>, k: nat, times: Dict<(int, int), real>,
                                         t: Dict<int, real>, byForklift: bool, x: Info)
    requires k <= |m| && LogParser.Rectangular(m)
    ensures x in MatrixInfos(key, m, k, times, t, byForklift) <==>
      exists r, c :: 0 <= r < k && 0 <= c < |m[r]| && CellInfo(key, r, c, m[r][c], times, t, byForklift) == Some(x)
  {
    if k > 0 {
      var n := k - 1;
      MatrixMembers(key, m, n, times, t, byForklift, x);
      RowMembers(key, n, m[n], |m[0]|, times, t, byForklift, x);
      var prev, found := MatrixInfos(key, m, n, times, t, byForklift), RowInfos(key, n, m[n], |m[0]|, times, t, byForklift);
      assert MatrixInfos(key, m, k, times, t, byForklift) == prev + found;
      MatrixMembersStep(key, m, n, prev, found, times, t, byForklift, x);
    }
  }

  /** The entries of the first n rows followed by those of row n are the entries of the
      first n + 1 rows. */
  lemma MatrixMembersStep(key: int, m: seq<seq<int>>, n: nat, prev: seq<Info>, found: seq<Info>,
                          times: Dict<(int, int), real>, t: Dict<int, real>, byForklift: bool, x: Info)
    requires n < |m| && LogParser.Rectangular(m)
    requires x in prev <==>
      exists r, c :: 0 <= r < n && 0 <= c < |m[r]| && CellInfo(key, r, c, m[r][c], times, t, byForklift) == Some(x)
    requires x in found <==>
      exists c :: 0 <= c < |m[0]| && CellInfo(key, n, c, m[n][c], times, t, byForklift) == Some(x)
    ensures x in prev + found <==>
      exists r, c :: 0 <= r < n + 1 && 0 <= c < |m[r]| && CellInfo(key, r, c, m[r][c], times, t, byForklift) == Some(x)
  {
    if x in found {
      var c :| 0 <= c < |m[0]| && CellInfo(key, n, c, m[n][c], times, t, byForklift) == Some(x);
      assert 0 <= n < n + 1 && 0 <= c < |m[n]|;
    } else if x !in prev {
      forall r, c | 0 <= r < n + 1 && 0 <= c < |m[r]|
        ensures CellInfo(key, r, c, m[r][c], times, t, byForklift) != Some(x)
      {
        if r < n {
          assert !(0 <= r < n && 0 <= c < |m[r]| && CellInfo(key, r, c, m[r][c], times, t, byForklift) == Some(x));
        } else {
          assert !(0 <= c < |m[0]| && CellInfo(key, n, c, m[n][c], times, t, byForklift) == Some(x));
        }
      }
    }
  }

  /** Collection fails exactly when some matrix has no rows. */
  lemma {:induction false} InfosFail(alpha: Dict<int, seq<seq<int>>>, k: nat, times: Dict<(int, int), real>,
                                     t: Dict<int, real>, byForklift: bool)
    requires k <= |alpha| && LogParser.AllRectangular(alpha)
    ensures InfosFrom(alpha, k, times, t, byForklift).Failure? <==> exists e :: 0 <= e < k && |alpha[e].1| == 0
  {
    if k > 0 {
      InfosFail(alpha, k - 1, times, t, byForklift);
    }
  }

  /** The entries are exactly those of the contributing cells of all matrices. */
  lemma {:induction false} InfosMembers(alpha: Dict<int, seq<seq<int>>>, k: nat, times: Dict<(int, int), real>,
                                        t: Dict<int, real>, byForklift: bool, x: Info)
    requires k <= |alpha| && LogParser.AllRectangular(alpha)
    requires InfosFrom(alpha, k, times, t, byForklift).Success?
    ensures x in InfosFrom(alpha, k, times, t, byForklift).value <==>
      exists e, r, c :: 0 <= e < k && 0 <= r < |alpha[e].1| && 0 <= c < |alpha[e].1[r]| &&
        CellInfo(alpha[e].0, r, c, alpha[e].1[r][c], times, t, byForklift) == Some(x)
  {
    if k > 0 {
      var n := k - 1;
      InfosMembers(alpha, n, times, t, byForklift, x);
      var key, m := alpha[n].0, alpha[n].1;
      MatrixMembers(key, m, |m|, times, t, byForklift, x);
      var prev, found := InfosFrom(alpha, n, times, t, byForklift).value, MatrixInfos(key, m, |m|, times, t, byForklift);
      assert InfosFrom(alpha, k, times, t, byForklift).value == prev + found;
      InfosMembersStep(alpha, n, prev, found, times, t, byForklift, x);
    }
  }

  /** The entries of the first n matrices followed by those of matrix n are the entries of
      the first n + 1 matrices. */
  lemma InfosMembersStep(alpha: Dict<int, seq<seq<int>>>, n: nat, prev: seq<Info>, found: seq<Info>,
                         times: Dict<(int, int), real>, t: Dict<int, real>, byForklift: bool, x: Info)
    requires n < |alpha|
    requires x in prev <==>
      exists e, r, c :: 0 <= e < n && 0 <= r < |alpha[e].1| && 0 <= c < |alpha[e].1[r]| &&
        CellInfo(alpha[e].0, r, c, alpha[e].1[r][c], times, t, byForklift) == Some(x)
    requires x in found <==>
      exists r, c :: 0 <= r < |alpha[n].1| && 0 <= c < |alpha[n].1[r]| &&
        CellInfo(alpha[n].0, r, c, alpha[n].1[r][c], times, t, byForklift) == Some(x)
    ensures x in prev + found <==>
      exists e, r, c :: 0 <= e < n + 1 && 0 <= r < |alpha[e].1| && 0 <= c < |alpha[e].1[r]| &&
        CellInfo(alpha[e].0, r, c, alpha[e].1[r][c], times, t, byForklift) == Some(x)
  {
    if x in found {
      var r, c :| 0 <= r < |alpha[n].1| && 0 <= c < |alpha[n].1[r]| &&
        CellInfo(alpha[n].0, r, c, alpha[n].1[r][c], times, t, byForklift) == Some(x);
      assert 0 <= n < n + 1;
    } else if x !in prev {
      forall e, r, c | 0 <= e < n + 1 && 0 <= r < |alpha[e].1| && 0 <= c < |alpha[e].1[r]|
        ensures CellInfo(alpha[e].0, r, c, alpha[e].1[r][c], times, t, byForklift) != Some(x)
      {
        if e < n {
          assert !(0 <= e < n && 0 <= r < |alpha[e].1| && 0 <= c < |alpha[e].1[r]| &&
            CellInfo(alpha[e].0, r, c, alpha[e].1[r][c], times, t, byForklift) == Some(x));
        }
      }
    }
  }

  // ---------------------------------------------------------------- makespan

  /** `max(xs)`. */
  function MaxReal(xs: seq<real>): (r: real)
    requires |xs| > 0
    ensures r in xs
    ensures forall i :: 0 <= i < |xs| ==> xs[i] <= r
  {
    if |xs| == 1 then xs[0]
    else
      var m := MaxReal(xs[..|xs| - 1]);
      assert forall i :: 0 <= i < |xs| - 1 ==> xs[i] == xs[..|xs| - 1][i];
      if xs[|xs| - 1] > m then xs[|xs| - 1] else m
  }

  function Completions(infos: seq<Info>): (r: seq<real>)
    ensures |r| == |infos|
  {
    seq(|infos|, i requires 0 <= i < |infos| => infos[i].completion)
  }

  /** `max(op['completion_time'] for op in operations_info)`, which raises when there are no
      entries. */
  function Makespan(infos: seq<Info>): Result<real>
  {
    if |infos| == 0 then Failure(MaxOfEmpty) else Success(MaxReal(Completions(infos)))
  }

  /** The makespan exists exactly when some operation was scheduled; it is the completion of
      one of them and no operation completes later. */
  lemma MakespanIsLatest(infos: seq<Info>)
    ensures Makespan(infos).Success? <==> |infos| > 0
    ensures Makespan(infos).Success? ==>
      && (forall i :: 0 <= i < |infos| ==> infos[i].completion <= Makespan(infos).value)
      && (exists i :: 0 <= i < |infos| && infos[i].completion == Makespan(infos).value)
  {
    if |infos| > 0 {
      var cs := Completions(infos);
      assert forall i :: 0 <= i < |infos| ==> infos[i].completion == cs[i];
      var i :| 0 <= i < |cs| && cs[i] == MaxReal(cs);
      assert infos[i].completion == Makespan(infos).value;
    }
  }

  // ---------------------------------------------------------------- delays

  /** `truck_completion_times.setdefault(truck, []).append(x)`. */
  function AddTime(g: Dict<int, seq<real>>, truck: int, x: real): Dict<int, seq<real>>
  {
    var times := match Lookup(g, truck) case None => [] case Some(ts) => ts;
    Put(g, truck, times + [x])
  }

  /** `truck_completion_times` after the given entries: every listed truck has at least
      one completion. */
  function Grouped(infos: seq<Info>): (g: Dict<int, seq<real>>)
    ensures AllNonEmpty(g)
  {
    if |infos| == 0 then []
    else AddTime(Grouped(infos[..|infos| - 1]), infos[|infos| - 1].truck, infos[|infos| - 1].completion)
  }

  /** The completions of the entries for one truck, in order. */
  function TruckTimes(infos: seq<Info>, truck: int): seq<real>
  {
    if |infos| == 0 then []
    else
      var last := infos[|infos| - 1];
      TruckTimes(infos[..|infos| - 1], truck) + (if last.truck == truck then [last.completion] else [])
  }

  method GroupByTruck(infos: seq<Info>) returns (g: Dict<int, seq<real>>)
    ensures g == Grouped(infos)
  {
    g := [];
    for i := 0 to |infos|
      invariant g == Grouped(infos[..i])
    {
      assert infos[..i + 1][..i] == infos[..i];
      var truck := infos[i].truck;
      var times := match Lookup(g, truck) case None => [] case Some(ts) => ts;
      g := Put(g, truck, times + [infos[i].completion]);
    }
    assert infos[..|infos|] == infos;
  }

  /** Each truck's list holds the completions of its entries in order, and a truck without
      entries has no list. */
  lemma {:induction false} GroupedLookup(infos: seq<Info>, truck: int)
    ensures Lookup(Grouped(infos), truck) == if |TruckTimes(infos, truck)| == 0 then None else Some(TruckTimes(infos, truck))
  {
    if |infos| > 0 {
      var init := infos[..|infos| - 1];
      var last := infos[|infos| - 1];
      GroupedLookup(init, truck);
      GroupedLookup(init, last.truck);
      var times := match Lookup(Grouped(init), last.truck) case None => [] case Some(ts) => ts;
      assert times == TruckTimes(init, last.truck);
      PutLookup(Grouped(init), last.truck, times + [last.completion], truck);
      if last.truck == truck {
        assert TruckTimes(infos, truck) == times + [last.completion];
      } else {
        assert TruckTimes(infos, truck) == TruckTimes(init, truck) + [];
        assert TruckTimes(init, truck) + [] == TruckTimes(init, truck);
      }
    }
  }

  /** Each truck is listed once. */
  lemma {:induction false} GroupedDistinct(infos: seq<Info>)
    ensures DistinctKeys(Grouped(infos))
  {
    if |infos| > 0 {
      var init := infos[..|infos| - 1];
      var last := infos[|infos| - 1];
      GroupedDistinct(init);
      var times := match Lookup(Grouped(init), last.truck) case None => [] case Some(ts) => ts;
      PutDistinct(Grouped(init), last.truck, times + [last.completion]);
    }
  }

  /** Every listed truck has at least one completion. */
  ghost predicate AllNonEmpty(g: Dict<int, seq<real>>)
  {
    forall i :: 0 <= i < |g| ==> |g[i].1| > 0
  }

  /** `d.get(truck, 0)`. */
  function DueDate(d: Dict<int, real>, truck: int): real
  {
    match Lookup(d, truck) case None => 0.0 case Some(x) => x
  }

  /** `max(0, max(times) - due)`: how far the last completion is past the due date. */
  function TruckDelay(times: seq<real>, due: real): (r: real)
    requires |times| > 0
    ensures r >= 0.0 && r >= MaxReal(times) - due
    ensures r == 0.0 || r == MaxReal(times) - due
  {
    var late := MaxReal(times) - due;
    if 0.0 >= late then 0.0 else late
  }

  /** `delays` after the first n trucks. */
  function DelaysOf(g: Dict<int, seq<real>>, d: Dict<int, real>, n: nat): Dict<int, real>
    requires n <= |g| && AllNonEmpty(g)
  {
    if n == 0 then []
    else Put(DelaysOf(g, d, n - 1), g[n - 1].0, TruckDelay(g[n - 1].1, DueDate(d, g[n - 1].0)))
  }

  method ComputeDelays(g: Dict<int, seq<real>>, d: Dict<int, real>) returns (delays: Dict<int, real>)
    requires AllNonEmpty(g)
    ensures delays == DelaysOf(g, d, |g|)
  {
    delays := [];
    for i := 0 to |g|
      invariant delays == DelaysOf(g, d, i)
    {
      var truck, times := g[i].0, g[i].1;
      var late := MaxReal(times) - DueDate(d, truck);
      var delay := if 0.0 >= late then 0.0 else late;
      delays := Put(delays, truck, delay);
    }
  }

  /** With each truck listed once, there is one delay per truck, in the same order. */
  lemma {:induction false} DelaysInOrder(g: Dict<int, seq<real>>, d: Dict<int, real>, n: nat)
    requires n <= |g| && AllNonEmpty(g) && DistinctKeys(g)
    ensures |DelaysOf(g, d, n)| == n
    ensures forall i :: 0 <= i < n ==> DelaysOf(g, d, n)[i] == (g[i].0, TruckDelay(g[i].1, DueDate(d, g[i].0)))
  {
    if n > 0 {
      DelaysInOrder(g, d, n - 1);
    }
  }

  // ---------------------------------------------------------------- aggregates

  /** `sum(1 for x in xs if x > 0)`. */
  function CountPositive(xs: seq<real>): (r: nat)
    ensures r <= |xs|
    ensures r == 0 <==> forall i :: 0 <= i < |xs| ==> xs[i] <= 0.0
  {
    if |xs| == 0 then 0
    else
      var k := CountPositive(xs[..|xs| - 1]);
      assert forall i :: 0 <= i < |xs| - 1 ==> xs[i] == xs[..|xs| - 1][i];
      k + (if xs[|xs| - 1] > 0.0 then 1 else 0)
  }

  /** `sum(xs)`. */
  function SumReal(xs: seq<real>): real
  {
    if |xs| == 0 then 0.0 else SumReal(xs[..|xs| - 1]) + xs[|xs| - 1]
  }

  ghost predicate NonNegative(xs: seq<real>)
  {
    forall i :: 0 <= i < |xs| ==> xs[i] >= 0.0
  }

  /** A sum of non-negative values is at least each of them. */
  lemma {:induction false} SumAtLeastEach(xs: seq<real>, i: nat)
    requires NonNegative(xs) && i < |xs|
    ensures xs[i] <= SumReal(xs) && SumReal(xs) >= 0.0
  {
    var init := xs[..|xs| - 1];
    assert NonNegative(init) by {
      assert forall j :: 0 <= j < |init| ==> init[j] == xs[j];
    }
    if |init| > 0 {
      SumAtLeastEach(init, if i < |init| then i else 0);
    }
    if i < |init| {
      assert init[i] == xs[i];
    }
  }

  /** `max(xs) if xs else 0`. */
  function MaxOrZero(xs: seq<real>): real
  {
    if |xs| == 0 then 0.0 else MaxReal(xs)
  }

  /** The largest of non-negative delays is at most their sum. */
  lemma MaxAtMostSum(xs: seq<real>)
    requires NonNegative(xs)
    ensures 0.0 <= MaxOrZero(xs) <= SumReal(xs)
  {
    if |xs| > 0 {
      var i :| 0 <= i < |xs| && xs[i] == MaxReal(xs);
      SumAtLeastEach(xs, i);
    }
  }

  // ---------------------------------------------------------------- calculate_metrics

  datatype Report = Report(makespan: real, numDelays: nat, maxDelay: real, sumDelays: real)

  /** `calculate_metrics`. */
  function MetricsOf(nTrucks: int, nMachines: int, alpha: Dict<int, seq<seq<int>>>, p: seq<Triple>,
                     t: Dict<int, real>, d: Dict<int, real>): Result<Report>
    requires LogParser.AllRectangular(alpha)
  {
    match Operations(nTrucks, nMachines, alpha, p, t)
    case Failure(e) => Failure(e)
    case Success(infos) =>
      match Makespan(infos)
      case Failure(e) => Failure(e)
      case Success(makespan) =>
        var g := Grouped(infos);
        var delays := Values(DelaysOf(g, d, |g|));
        Success(Report(makespan, CountPositive(delays), MaxOrZero(delays), SumReal(delays)))
  }

  method CalculateMetrics(nTrucks: int, nMachines: int, alpha: Dict<int, seq<seq<int>>>, p: seq<Triple>,
                          t: Dict<int, real>, d: Dict<int, real>) returns (r: Result<Report>)
    requires LogParser.AllRectangular(alpha)
    ensures r == MetricsOf(nTrucks, nMachines, alpha, p, t, d)
  {
    var infos := CollectOperations(nTrucks, nMachines, alpha, p, t);
    if infos.Failure? {
      return Failure(infos.error);
    }
    var makespan := Makespan(infos.value);
    if makespan.Failure? {
      return Failure(makespan.error);
    }
    var g := GroupByTruck(infos.value);
    var delays := ComputeDelays(g, d);
    var values := Values(delays);
    return Success(Report(makespan.value, CountPositive(values), MaxOrZero(values), SumReal(values)));
  }

  /** The delays of the report: one per truck with a scheduled operation, each the amount by
      which that truck's last completion passes its due date (0 when it does not). */
  lemma ReportDelays(infos: seq<Info>, d: Dict<int, real>)
    ensures var g := Grouped(infos);
      var delays := DelaysOf(g, d, |g|);
      && |delays| == |g|
      && forall i :: 0 <= i < |g| ==>
           && delays[i].0 == g[i].0
           && g[i].1 == TruckTimes(infos, g[i].0)
           && delays[i].1 == TruckDelay(TruckTimes(infos, g[i].0), DueDate(d, g[i].0))
  {
    var g := Grouped(infos);
    GroupedDistinct(infos);
    DelaysInOrder(g, d, |g|);
    forall i | 0 <= i < |g|
      ensures g[i].1 == TruckTimes(infos, g[i].0)
    {
      LookupAt(g, i);
      GroupedLookup(infos, g[i].0);
    }
  }

  /** The aggregates: the makespan bounds every completion, no more trucks are late than
      have operations, delays are non-negative, and the largest delay is at most the total,
      with a positive largest delay exactly when some truck is late. */
  lemma ReportBounds(nTrucks: int, nMachines: int, alpha: Dict<int, seq<seq<int>>>, p: seq<Triple>,
                     t: Dict<int, real>, d: Dict<int, real>)
    requires LogParser.AllRectangular(alpha)
    requires MetricsOf(nTrucks, nMachines, alpha, p, t, d).Success?
    ensures var infos := Operations(nTrucks, nMachines, alpha, p, t).value;
      var report := MetricsOf(nTrucks, nMachines, alpha, p, t, d).value;
      && |infos| > 0
      && (forall i :: 0 <= i < |infos| ==> infos[i].completion <= report.makespan)
      && report.numDelays <= |Grouped(infos)|
      && 0.0 <= report.maxDelay <= report.sumDelays
      && (report.maxDelay > 0.0 <==> report.numDelays > 0)
  {
    var infos := Operations(nTrucks, nMachines, alpha, p, t).value;
    MakespanIsLatest(infos);
    var g := Grouped(infos);
    ReportDelays(infos, d);
    var ds := DelaysOf(g, d, |g|);
    var delays := Values(ds);
    assert NonNegative(delays) by {
      forall i | 0 <= i < |delays|
        ensures delays[i] >= 0.0
      {
        assert delays[i] == ds[i].1;
      }
    }
    MaxAtMostSum(delays);
    if |delays| > 0 {
      var k :| 0 <= k < |delays| && delays[k] == MaxReal(delays);
    }
  }
}
