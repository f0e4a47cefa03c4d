/** Task and operation synthesis: per-area task quotas, sequential task numbering, the
    round-robin assignment of shuffled tasks to trucks, totals, predecessors, the distribution
    of operations over areas and the expansion of tasks into operation pairs.
    A truck is identified by its position: `trucks[i]` belongs to "Caminhão i+1". */
module Tasks {
  import opened Wrappers
  import opened Seqs
  import opened Dicts
  import opened Rand
  import opened Areas
  import opened Numbers

  /** Number of tasks per area, in the order the areas were generated. */
  type Quotas = Dict<Area, nat>

  // ---------------------------------------------------------------------------------------
  // Quotas

  /** How many of the first n draws pick storage area a (0-based) among m areas. */
  function Hits(draw: nat -> nat, m: nat, n: nat, a: nat): (r: nat)
    requires m > 0
    ensures r <= n
  {
    if n == 0 then 0 else Hits(draw, m, n - 1, a) + (if draw(n - 1) % m == a then 1 else 0)
  }

  /** The storage counters after n draws over m areas. */
  function StorageCounts(draw: nat -> nat, m: nat, n: nat): (r: seq<nat>)
    ensures |r| == m
  {
    if m == 0 then [] else seq(m, a requires 0 <= a < m => Hits(draw, m, n, a))
  }

  /** Every one of the n draws is counted exactly once. */
  lemma {:induction false} StorageCountsSum(draw: nat -> nat, m: nat, n: nat)
    requires m > 0
    ensures Sum(StorageCounts(draw, m, n)) == n
  {
    if n == 0 {
      SumZeros(StorageCounts(draw, m, 0));
    } else {
      var a := draw(n - 1) % m;
      var before := StorageCounts(draw, m, n - 1);
      CountsStep(draw, m, n);
      StorageCountsSum(draw, m, n - 1);
      SumAfterIncrement(StorageCounts(draw, m, n), before, a, n - 1);
    }
  }

  lemma SumAfterIncrement(now: seq<int>, before: seq<int>, a: nat, k: int)
    requires a < |before| && now == before[a := before[a] + 1] && Sum(before) == k
    ensures Sum(now) == k + 1
  {
    SumIncrement(before, a);
  }

  /** Draw n - 1 adds one to the counter of the area it picks. */
  lemma CountsStep(draw: nat -> nat, m: nat, n: nat)
    requires m > 0 && n > 0
    ensures var a := draw(n - 1) % m;
      var before := StorageCounts(draw, m, n - 1);
      StorageCounts(draw, m, n) == before[a := before[a] + 1]
  {
  }

  lemma {:induction false} SumZeros(s: seq<int>)
    requires forall i :: 0 <= i < |s| ==> s[i] == 0
    ensures Sum(s) == 0
    decreases |s|
  {
    if |s| > 0 {
      SumZeros(s[..|s| - 1]);
    }
  }

  function StorageEntries(counts: seq<nat>): (r: Quotas)
    ensures |r| == |counts|
    ensures forall i :: 0 <= i < |counts| ==> r[i] == (Storage(i + 1), counts[i])
  {
    seq(|counts|, i requires 0 <= i < |counts| => (Storage(i + 1), counts[i]))
  }

  /** The quotas of `gerar_tarefas_estoque_e_docas`: one entry "Estoque i" per storage area
      holding the number of draws that chose it, then "Docas entrada" with the dock tasks.
      Drawing an area when there is none fails. */
  function GeneratedQuotas(nAreas: nat, nStorageTasks: nat, nDockTasks: nat, draw: nat -> nat): Result<Quotas>
  {
    if nAreas == 0 && nStorageTasks > 0 then Failure(EmptyRandomRange)
    else Success(StorageEntries(StorageCounts(draw, nAreas, nStorageTasks)) + [(InboundDocks, nDockTasks)])
  }

  /** Draws `randint(0, nAreas - 1)` once per storage task, the k-th draw from `draw(k)`. */
  method GenerateQuotas(nAreas: nat, nStorageTasks: nat, nDockTasks: nat, draw: nat -> nat)
    returns (r: Result<Quotas>)
    ensures r == GeneratedQuotas(nAreas, nStorageTasks, nDockTasks, draw)
  {
    var counts: seq<nat> := seq(nAreas, _ => 0);
    var k := 0;
    while k < nStorageTasks
      invariant 0 <= k <= nStorageTasks
      invariant counts == StorageCounts(draw, nAreas, k)
      invariant nAreas == 0 ==> k == 0
    {
      if nAreas == 0 {
        return Failure(EmptyRandomRange);
      }
      var a := draw(k) % nAreas;
      counts := counts[a := counts[a] + 1];
      k := k + 1;
    }
    var quotas: Quotas := [];
    for i := 0 to nAreas
      invariant quotas == StorageEntries(counts[..i])
    {
      assert !HasKey(quotas, Storage(i + 1));
      quotas := Put(quotas, Storage(i + 1), counts[i]);
      assert counts[..i + 1] == counts[..i] + [counts[i]];
    }
    assert counts[..nAreas] == counts;
    assert !HasKey(quotas, InboundDocks);
    quotas := Put(quotas, InboundDocks, nDockTasks);
    r := Success(quotas);
  }

  /** Storage quotas are counted from the draws and sum to the storage task total; keys are
      "Estoque 1".."Estoque n" in order, then "Docas entrada" holding the dock task count. */
  lemma GeneratedQuotasShape(nAreas: nat, nStorageTasks: nat, nDockTasks: nat, draw: nat -> nat)
    ensures GeneratedQuotas(nAreas, nStorageTasks, nDockTasks, draw).Failure? <==> nAreas == 0 && nStorageTasks > 0
    ensures var r := GeneratedQuotas(nAreas, nStorageTasks, nDockTasks, draw);
      r.Success? ==>
        && |r.value| == nAreas + 1
        && (forall i :: 0 <= i < nAreas ==> r.value[i].0 == Storage(i + 1))
        && r.value[nAreas] == (InboundDocks, nDockTasks)
        && Sum(Values(r.value[..nAreas])) == nStorageTasks
        && Sum(Values(r.value)) == nStorageTasks + nDockTasks
        && DistinctKeys(r.value)
  {
    var r := GeneratedQuotas(nAreas, nStorageTasks, nDockTasks, draw);
    if r.Success? {
      var counts := StorageCounts(draw, nAreas, nStorageTasks);
      assert r.value[..nAreas] == StorageEntries(counts);
      assert Values(r.value[..nAreas]) == counts;
      if nAreas > 0 {
        StorageCountsSum(draw, nAreas, nStorageTasks);
      }
      assert Values(r.value) == Values(r.value[..nAreas]) + [nDockTasks];
      SumAppend(Values(r.value[..nAreas]), nDockTasks);
    }
  }

  // ---------------------------------------------------------------------------------------
  // Task list and totals

  /** Numbers the tasks of every area in dictionary order, starting at 1. */
  method TaskList(quotas: Quotas) returns (tasks: seq<int>)
    ensures tasks == Range(1, Sum(Values(quotas)) + 1)
  {
    var values := Values(quotas);
    var next := 1;
    tasks := [];
    for a := 0 to |quotas|
      invariant next == Sum(values[..a]) + 1
      invariant tasks == Range(1, next)
    {
      for j := 0 to quotas[a].1
        invariant next == Sum(values[..a]) + 1 + j
        invariant tasks == Range(1, next)
      {
        tasks := tasks + [next];
        next := next + 1;
      }
      assert values[..a + 1][..a] == values[..a];
    }
    assert values[..|quotas|] == values;
  }

  /** The task numbers are exactly 1..T, each once and in increasing order. */
  lemma TaskListIds(quotas: Quotas, x: int)
    ensures x in Range(1, Sum(Values(quotas)) + 1) <==> 1 <= x <= Sum(Values(quotas))
    ensures StrictlyIncreasing(Range(1, Sum(Values(quotas)) + 1))
    ensures |Range(1, Sum(Values(quotas)) + 1)| == Sum(Values(quotas))
  {
    SumNonNegative(Values(quotas));
    RangeMembership(1, Sum(Values(quotas)) + 1, x);
  }

  /** `calcular_totais`: the number of tasks and of operations. */
  function Totals(quotas: Quotas, opsPerTask: int): (r: (nat, int))
  {
    SumNonNegative(Values(quotas));
    var tasks := Sum(Values(quotas));
    (tasks, tasks * opsPerTask)
  }

  /** The task total is the length of the task list, and the operation total is that many
      tasks times the operations per task. */
  lemma TotalsCountTasks(quotas: Quotas, opsPerTask: int)
    ensures Totals(quotas, opsPerTask).0 == |Range(1, Sum(Values(quotas)) + 1)|
    ensures Totals(quotas, opsPerTask).1 == |Range(1, Sum(Values(quotas)) + 1)| * opsPerTask
  {
    SumNonNegative(Values(quotas));
  }

  // ---------------------------------------------------------------------------------------
  // Round-robin assignment of tasks to trucks

  /** The elements of s at the positions congruent to t modulo n, in order: the tasks that
      position-wise go to truck t + 1. */
  function Lane(s: seq<int>, n: nat, t: nat): seq<int>
    requires n > 0
  {
    if |s| == 0 then []
    else Lane(s[..|s| - 1], n, t) + (if (|s| - 1) % n == t then [s[|s| - 1]] else [])
  }

  function Lanes(s: seq<int>, n: nat): (r: seq<seq<int>>)
    requires n > 0
    ensures |r| == n
  {
    seq(n, t requires 0 <= t < n => Lane(s, n, t))
  }

  lemma LanesAppend(s: seq<int>, n: nat, x: int)
    requires n > 0
    ensures Lanes(s + [x], n) == Lanes(s, n)[|s| % n := Lanes(s, n)[|s| % n] + [x]]
  {
    assert (s + [x])[..|s|] == s;
    forall t | 0 <= t < n
      ensures Lanes(s + [x], n)[t] == Lanes(s, n)[|s| % n := Lanes(s, n)[|s| % n] + [x]][t]
    {
      assert Lane(s + [x], n, t) == Lane(s, n, t) + (if |s| % n == t then [x] else []);
    }
  }

  /** `distribuir_tarefas_caminhoes`: the shuffled tasks dealt out over n trucks.
      With no trucks, any task fails on `i % 0`. */
  function TruckTasks(tasks: seq<int>, n: nat, draw: nat -> nat): Result<seq<seq<int>>>
  {
    if n == 0 then (if |tasks| == 0 then Success([]) else Failure(ZeroDivision))
    else Success(Lanes(Shuffle(tasks, draw), n))
  }

  method DistributeTasks(tasks: seq<int>, n: nat, draw: nat -> nat) returns (r: Result<seq<seq<int>>>)
    ensures r == TruckTasks(tasks, n, draw)
  {
    var shuffled := Shuffle(tasks, draw);
    var trucks: seq<seq<int>> := Empties(n);
    for i := 0 to |shuffled|
      invariant n > 0 ==> trucks == Lanes(shuffled[..i], n)
      invariant n == 0 ==> i == 0 && trucks == []
    {
      if n == 0 {
        return Failure(ZeroDivision);
      }
      assert shuffled[..i + 1] == shuffled[..i] + [shuffled[i]];
      LanesAppend(shuffled[..i], n, shuffled[i]);
      trucks := trucks[i % n := trucks[i % n] + [shuffled[i]]];
    }
    assert shuffled[..|shuffled|] == shuffled;
    assert |shuffled| == |tasks| by {
      assert |multiset(shuffled)| == |multiset(tasks)|;
    }
    return Success(trucks);
  }

  /** Truck t receives |s| / n tasks, plus one when t is among the first |s| % n trucks. */
  lemma {:induction false} LaneLength(s: seq<int>, n: nat, t: nat)
    requires n > 0 && t < n
    ensures |Lane(s, n, t)| == |s| / n + (if t < |s| % n then 1 else 0)
    decreases |s|
  {
    if |s| > 0 {
      var m := |s| - 1;
      LaneLength(s[..m], n, t);
      DivModStep(m, n);
    }
  }

  /** The trucks' task counts differ by at most one. */
  lemma LanesBalanced(s: seq<int>, n: nat, t: nat, u: nat)
    requires n > 0 && t < n && u < n
    ensures |Lane(s, n, t)| <= |Lane(s, n, u)| + 1
  {
    LaneLength(s, n, t);
    LaneLength(s, n, u);
  }

  /** The q-th task of truck t is the task at position q * n + t of the shuffled list. */
  lemma {:induction false} LaneElements(s: seq<int>, n: nat, t: nat)
    requires n > 0 && t < n
    ensures forall q :: 0 <= q < |Lane(s, n, t)| ==> q * n + t < |s| && Lane(s, n, t)[q] == s[q * n + t]
    decreases |s|
  {
    if |s| > 0 {
      var m := |s| - 1;
      var front := s[..m];
      var lane, before := Lane(s, n, t), Lane(front, n, t);
      LaneElements(front, n, t);
      assert lane == before + (if m % n == t then [s[m]] else []);
      forall q | 0 <= q < |lane|
        ensures q * n + t < |s| && lane[q] == s[q * n + t]
      {
        if q < |before| {
          assert lane[q] == before[q] == front[q * n + t];
        } else {
          LaneLength(front, n, t);
          assert m == (m / n) * n + t;
        }
      }
    }
  }

  /** Every task lands in exactly one truck: the trucks' lists together are the task list. */
  lemma {:induction false} LanesPartition(s: seq<int>, n: nat)
    requires n > 0
    ensures multiset(Flatten(Lanes(s, n))) == multiset(s)
    decreases |s|
  {
    if |s| == 0 {
      assert Lanes(s, n) == Empties(n);
      FlattenEmpty<int>(n);
    } else {
      var m := |s| - 1;
      assert s == s[..m] + [s[m]];
      LanesAppend(s[..m], n, s[m]);
      LanesPartition(s[..m], n);
      FlattenAppendAt(Lanes(s[..m], n), m % n, s[m]);
    }
  }

  /** Dealing out a permutation of the task list hands out every task exactly once. */
  lemma TruckTasksPartition(tasks: seq<int>, n: nat, draw: nat -> nat)
    requires TruckTasks(tasks, n, draw).Success?
    ensures multiset(Flatten(TruckTasks(tasks, n, draw).value)) == multiset(tasks)
  {
    if n > 0 {
      LanesPartition(Shuffle(tasks, draw), n);
    } else {
      FlattenEmpty<int>(0);
      assert TruckTasks(tasks, n, draw).value == Empties(0);
    }
  }

  // ---------------------------------------------------------------------------------------
  // Predecessors

  /** True when operation i opens a task, that is, (i - 1) is a multiple of k. */
  predicate StartsTask(i: int, k: int)
    requires k != 0
  {
    (i - 1) % k == 0
  }

  /** The predecessor rule: 0 for the first operation of a task, otherwise the operation before. */
  function PredecessorOf(i: int, k: int): int
    requires k != 0
  {
    if StartsTask(i, k) then 0 else i - 1
  }

  /** Predecessors of the operations 1..n, the one of operation i at index i - 1. */
  function PredecessorsUpTo(n: nat, k: int): (r: seq<int>)
    requires k != 0
    ensures |r| == n
    ensures forall j :: 0 <= j < n ==> r[j] == PredecessorOf(j + 1, k)
  {
    seq(n, j requires 0 <= j < n => PredecessorOf(j + 1, k))
  }

  /** `criar_predecessores`: entry i - 1 holds the predecessor of operation i, for
      i = 1..nOps. A zero k fails as soon as there is an operation. */
  function PredecessorTable(nOps: int, k: int): Result<seq<int>>
  {
    if nOps <= 0 then Success([])
    else if k == 0 then Failure(ZeroDivision)
    else Success(PredecessorsUpTo(nOps, k))
  }

  method Predecessors(nOps: int, k: int) returns (r: Result<seq<int>>)
    ensures r == PredecessorTable(nOps, k)
  {
    var preds: seq<int> := [];
    var i := 1;
    while i <= nOps
      invariant 1 <= i && (i == 1 || i <= nOps + 1)
      invariant k != 0 ==> preds == PredecessorsUpTo(i - 1, k)
      invariant k == 0 ==> i == 1
      invariant |preds| == i - 1
    {
      if k == 0 {
        return Failure(ZeroDivision);
      }
      if (i - 1) % k == 0 {
        preds := preds + [0];
      } else {
        preds := preds + [i - 1];
      }
      i := i + 1;
    }
    return Success(preds);
  }

  /** Keys are exactly the operations 1..nOps, and a predecessor is 0 (a task's first
      operation) or the operation just before: always 0 <= pred(i) < i. */
  lemma PredecessorBounds(nOps: int, k: int, i: int)
    requires PredecessorTable(nOps, k).Success?
    requires 1 <= i <= nOps
    ensures |PredecessorTable(nOps, k).value| == nOps
    ensures var p := PredecessorTable(nOps, k).value[i - 1];
      0 <= p < i && (p == 0 <==> StartsTask(i, k)) && (p != 0 ==> p == i - 1)
  {
  }

  /** Number of operations met when following predecessors from operation i down to 0. */
  function ChainLength(i: int, k: int): nat
    requires k != 0
    decreases i
  {
    if i < 1 || PredecessorOf(i, k) == 0 then 1 else 1 + ChainLength(PredecessorOf(i, k), k)
  }

  /** The predecessor chain from operation i runs back to the first operation of its task:
      it visits (i - 1) mod k + 1 operations. */
  lemma {:induction false} PredecessorChain(i: int, k: int)
    requires k > 0 && i >= 1
    ensures ChainLength(i, k) == (i - 1) % k + 1
    decreases i
  {
    if !StartsTask(i, k) {
      var q, r := (i - 1) / k, (i - 1) % k;
      DivModUnique(i - 2, k, q, r - 1);
      PredecessorChain(i - 1, k);
    }
  }

  // ---------------------------------------------------------------------------------------
  // Distribution of operations over areas

  /** The three kinds of operation: opening a task, closing it, or in between. */
  datatype Leg = First | Last | Middle

  function LegOf(i: int, k: int): Leg
    requires k != 0
  {
    if (i - 1) % k == 0 then First else if i % k == 0 then Last else Middle
  }

  /** The operations 1..hi of the given kind, in increasing order. */
  function Legs(hi: int, k: int, leg: Leg): seq<int>
    requires k != 0 || hi < 1
    decreases hi
  {
    if hi < 1 then [] else Legs(hi - 1, k, leg) + (if LegOf(hi, k) == leg then [hi] else [])
  }

  lemma {:induction false} LegsMembership(hi: int, k: int, leg: Leg, x: int)
    requires k != 0
    ensures x in Legs(hi, k, leg) <==> 1 <= x <= hi && LegOf(x, k) == leg
    decreases hi
  {
    if hi >= 1 {
      LegsMembership(hi - 1, k, leg, x);
    }
  }

  lemma {:induction false} LegsIncreasing(hi: int, k: int, leg: Leg)
    requires k != 0
    ensures StrictlyIncreasing(Legs(hi, k, leg))
    decreases hi
  {
    if hi >= 1 {
      LegsIncreasing(hi - 1, k, leg);
      var prev := Legs(hi - 1, k, leg);
      forall j | 0 <= j < |prev|
        ensures prev[j] < hi
      {
        LegsMembership(hi - 1, k, leg, prev[j]);
      }
    }
  }

  lemma LegsStep(hi: int, k: int, leg: Leg)
    requires k != 0 && hi >= 1
    ensures multiset(Legs(hi, k, leg))
      == multiset(Legs(hi - 1, k, leg)) + if LegOf(hi, k) == leg then multiset{hi} else multiset{}
  {
  }

  /** Every operation 1..hi has exactly one kind. */
  lemma {:induction false} LegsPartition(hi: int, k: int)
    requires k != 0
    ensures multiset(Legs(hi, k, First)) + multiset(Legs(hi, k, Last)) + multiset(Legs(hi, k, Middle))
      == multiset(Range(1, hi + 1))
    decreases hi
  {
    if hi >= 1 {
      LegsPartition(hi - 1, k);
      RangeSnoc(1, hi);
      LegsStep(hi, k, First);
      LegsStep(hi, k, Last);
      LegsStep(hi, k, Middle);
    }
  }

  lemma LegOfTwo(x: int)
    ensures LegOf(x, 2) == if x % 2 == 1 then First else Last
  {
  }

  /** With two operations per task, the odd operations open tasks, the even ones close
      them, and nothing lies in between. */
  lemma LegsOfPairs(hi: int, x: int)
    ensures x in Legs(hi, 2, First) <==> 1 <= x <= hi && x % 2 == 1
    ensures x in Legs(hi, 2, Last) <==> 1 <= x <= hi && x % 2 == 0
    ensures Legs(hi, 2, Middle) == []
  {
    LegOfTwo(x);
    LegsMembership(hi, 2, First, x);
    LegsMembership(hi, 2, Last, x);
    var mids := Legs(hi, 2, Middle);
    if |mids| > 0 {
      LegsMembership(hi, 2, Middle, mids[0]);
      LegOfTwo(mids[0]);
    }
  }

  lemma {:induction false} LegsOfPairsCount(t: nat)
    ensures |Legs(2 * t, 2, First)| == t
    ensures |Legs(2 * t, 2, Last)| == t
    decreases t
  {
    if t > 0 {
      LegsOfPairsCount(t - 1);
      assert Legs(2 * t, 2, First) == Legs(2 * t - 2, 2, First) + [2 * t - 1];
      assert Legs(2 * t, 2, Last) == Legs(2 * t - 2, 2, Last) + [2 * t];
    }
  }

  /** Operations per area; the slice for each quota entry. */
  type AreaOps = Dict<Area, seq<int>>

  /** The loop over the quota entries: each area other than "Docas saída" is dealt the
      next slice of the shuffled opening legs, as long as its quota; the result also gives
      where the next slice would start. */
  function AssignSlices(acc: AreaOps, quotas: Quotas, legs: seq<int>): (r: (AreaOps, nat))
    decreases |quotas|
  {
    if |quotas| == 0 then (acc, 0)
    else
      var done := AssignSlices(acc, quotas[..|quotas| - 1], legs);
      var (area, q) := quotas[|quotas| - 1];
      if area == OutboundDocks then done
      else (Put(done.0, area, Slice(legs, done.1, done.1 + q)), done.1 + q)
  }

  /** `distribuir_operacoes_por_area` on operations 1..total: "Docas saída" first with the
      closing legs, then each quota area with its slice of the shuffled opening legs, then
      "Picking" with the middle legs and the unassigned opening legs, only when there is a
      middle leg. A zero k fails as soon as there is an operation. */
  function AreaOperations(quotas: Quotas, total: int, k: int, draw: nat -> nat): Result<AreaOps>
  {
    if k == 0 && total >= 1 then Failure(ZeroDivision)
    else
      var firsts := Shuffle(Legs(total, k, First), draw);
      var dealt := AssignSlices([(OutboundDocks, Legs(total, k, Last))], quotas, firsts);
      var middles := Legs(total, k, Middle);
      Success(if |middles| > 0 then Put(dealt.0, Picking, middles + Slice(firsts, dealt.1, |firsts|))
              else dealt.0)
  }

  method DistributeOperations(quotas: Quotas, total: int, k: int, draw: nat -> nat) returns (r: Result<AreaOps>)
    ensures r == AreaOperations(quotas, total, k, draw)
  {
    var legs := SplitLegs(total, k);
    if legs.Failure? {
      return Failure(legs.error);
    }
    var (firsts, lasts, middles) := legs.value;
    var shuffled := Shuffle(firsts, draw);
    var result, from := CutSlices([(OutboundDocks, lasts)], quotas, shuffled);
    if |middles| > 0 {
      result := Put(result, Picking, middles + Slice(shuffled, from, |shuffled|));
    }
    r := Success(result);
  }

  /** The loop over operations 1..total, sorting them into opening, closing and middle legs. */
  method SplitLegs(total: int, k: int) returns (r: Result<(seq<int>, seq<int>, seq<int>)>)
    ensures r.Failure? <==> k == 0 && total >= 1
    ensures r.Failure? ==> r.error == ZeroDivision
    ensures r.Success? ==> r.value == (Legs(total, k, First), Legs(total, k, Last), Legs(total, k, Middle))
  {
    var firsts: seq<int> := [];
    var lasts: seq<int> := [];
    var middles: seq<int> := [];
    var i := 1;
    while i <= total
      invariant 1 <= i && (i == 1 || i <= total + 1)
      invariant k == 0 ==> i == 1
      invariant firsts == Legs(i - 1, k, First)
      invariant lasts == Legs(i - 1, k, Last)
      invariant middles == Legs(i - 1, k, Middle)
    {
      if k == 0 {
        return Failure(ZeroDivision);
      }
      if (i - 1) % k == 0 {
        firsts := firsts + [i];
      } else if i % k == 0 {
        lasts := lasts + [i];
      } else {
        middles := middles + [i];
      }
      i := i + 1;
    }
    r := Success((firsts, lasts, middles));
  }

  /** The loop over the quota entries, cutting consecutive slices of the shuffled legs. */
  method CutSlices(acc: AreaOps, quotas: Quotas, legs: seq<int>) returns (result: AreaOps, from: nat)
    ensures (result, from) == AssignSlices(acc, quotas, legs)
  {
    result, from := acc, 0;
    for j := 0 to |quotas|
      invariant (result, from) == AssignSlices(acc, quotas[..j], legs)
    {
      assert quotas[..j + 1][..j] == quotas[..j];
      var (area, q) := quotas[j];
      if area != OutboundDocks {
        var upto := from + q;
        result := Put(result, area, Slice(legs, from, upto));
        from := upto;
      }
    }
    assert quotas[..|quotas|] == quotas;
  }

  /** Where the slice of quota entry j starts: the sum of the quotas before it. */
  function Offset(quotas: Quotas, j: nat): (r: nat)
    requires j <= |quotas|
  {
    SumNonNegative(Values(quotas[..j]));
    Sum(Values(quotas[..j]))
  }

  lemma OffsetStep(quotas: Quotas, j: nat)
    requires j < |quotas|
    ensures Offset(quotas, j + 1) == Offset(quotas, j) + quotas[j].1
  {
    assert Values(quotas[..j + 1]) == Values(quotas[..j]) + [quotas[j].1];
    SumAppend(Values(quotas[..j]), quotas[j].1);
  }

  lemma {:induction false} OffsetMonotone(quotas: Quotas, i: nat, j: nat)
    requires i <= j <= |quotas|
    ensures Offset(quotas, i) <= Offset(quotas, j)
    decreases j - i
  {
    if i < j {
      OffsetStep(quotas, j - 1);
      OffsetMonotone(quotas, i, j - 1);
    }
  }

  /** Each quota area with the consecutive slice of `legs` as long as its quota. */
  function SlicesOf(quotas: Quotas, legs: seq<int>): (r: AreaOps)
    ensures |r| == |quotas|
    ensures forall j :: 0 <= j < |quotas| ==>
      r[j] == (quotas[j].0, Slice(legs, Offset(quotas, j), Offset(quotas, j + 1)))
  {
    seq(|quotas|, j requires 0 <= j < |quotas| =>
      (quotas[j].0, Slice(legs, Offset(quotas, j), Offset(quotas, j + 1))))
  }

  /** Quotas as the generator makes them: distinct keys, none of them "Docas saída" or "Picking". */
  predicate PlainQuotas(quotas: Quotas)
  {
    && DistinctKeys(quotas)
    && forall j :: 0 <= j < |quotas| ==> quotas[j].0 != OutboundDocks && quotas[j].0 != Picking
  }

  /** The slicing loop appends one entry per quota area, in order, holding consecutive
      slices whose lengths are the quotas (as far as the legs reach). */
  lemma {:induction false} AssignSlicesShape(acc: AreaOps, quotas: Quotas, legs: seq<int>)
    requires PlainQuotas(quotas)
    requires forall i, j :: 0 <= i < |acc| && 0 <= j < |quotas| ==> acc[i].0 != quotas[j].0
    ensures AssignSlices(acc, quotas, legs).0 == acc + SlicesOf(quotas, legs)
    ensures AssignSlices(acc, quotas, legs).1 == Offset(quotas, |quotas|)
    decreases |quotas|
  {
    if |quotas| == 0 {
      assert quotas[..0] == [];
    } else {
      var n := |quotas| - 1;
      var prefix := quotas[..n];
      assert PlainQuotas(prefix);
      AssignSlicesShape(acc, prefix, legs);
      SlicesFresh(acc, quotas, legs);
      OffsetPrefix(quotas, n, n);
      AssignSlicesShapeStep(acc, quotas, legs);
    }
  }

  /** The last quota area is in neither the starting entries nor the slices before it. */
  lemma SlicesFresh(acc: AreaOps, quotas: Quotas, legs: seq<int>)
    requires |quotas| > 0 && PlainQuotas(quotas)
    requires forall i, j :: 0 <= i < |acc| && 0 <= j < |quotas| ==> acc[i].0 != quotas[j].0
    ensures !HasKey(acc + SlicesOf(quotas[..|quotas| - 1], legs), quotas[|quotas| - 1].0)
  {
    var n := |quotas| - 1;
    var d := acc + SlicesOf(quotas[..n], legs);
    forall i | 0 <= i < |d| ensures d[i].0 != quotas[n].0 {
      if i >= |acc| {
        assert d[i].0 == quotas[i - |acc|].0;
      }
    }
  }

  lemma AssignSlicesShapeStep(acc: AreaOps, quotas: Quotas, legs: seq<int>)
    requires |quotas| > 0 && quotas[|quotas| - 1].0 != OutboundDocks
    requires var n := |quotas| - 1;
      AssignSlices(acc, quotas[..n], legs) == (acc + SlicesOf(quotas[..n], legs), Offset(quotas, n))
    requires !HasKey(acc + SlicesOf(quotas[..|quotas| - 1], legs), quotas[|quotas| - 1].0)
    ensures AssignSlices(acc, quotas, legs) == (acc + SlicesOf(quotas, legs), Offset(quotas, |quotas|))
  {
    var n := |quotas| - 1;
    var front := SlicesOf(quotas[..n], legs);
    OffsetStep(quotas, n);
    SlicesOfSnoc(quotas, legs);
    AssignSlicesStep(acc, quotas, legs, front, Offset(quotas, n));
  }

  /** One more quota area puts its slice of the legs after the slices so far. */
  lemma AssignSlicesStep(acc: AreaOps, quotas: Quotas, legs: seq<int>, front: AreaOps, lo: nat)
    requires |quotas| > 0 && quotas[|quotas| - 1].0 != OutboundDocks
    requires AssignSlices(acc, quotas[..|quotas| - 1], legs) == (acc + front, lo)
    requires !HasKey(acc + front, quotas[|quotas| - 1].0)
    ensures var (area, q) := quotas[|quotas| - 1];
      AssignSlices(acc, quotas, legs) == (acc + (front + [(area, Slice(legs, lo, lo + q))]), lo + q)
  {
    var (area, q) := quotas[|quotas| - 1];
    PutAfter(acc, front, area, Slice(legs, lo, lo + q));
  }

  lemma PutAfter(acc: AreaOps, entries: AreaOps, area: Area, ops: seq<int>)
    requires !HasKey(acc + entries, area)
    ensures Put(acc + entries, area, ops) == acc + (entries + [(area, ops)])
  {
  }

  lemma SlicesOfSnoc(quotas: Quotas, legs: seq<int>)
    requires |quotas| > 0
    ensures var n := |quotas| - 1;
      SlicesOf(quotas, legs)
        == SlicesOf(quotas[..n], legs) + [(quotas[n].0, Slice(legs, Offset(quotas, n), Offset(quotas, n + 1)))]
  {
    var n := |quotas| - 1;
    SlicesOfPrefix(quotas, legs, n);
    assert SlicesOf(quotas, legs) == SlicesOf(quotas, legs)[..n] + [SlicesOf(quotas, legs)[n]];
  }

  lemma OffsetPrefix(quotas: Quotas, m: nat, j: nat)
    requires j <= m <= |quotas|
    ensures Offset(quotas[..m], j) == Offset(quotas, j)
  {
    assert quotas[..m][..j] == quotas[..j];
  }

  lemma SlicesOfPrefix(quotas: Quotas, legs: seq<int>, m: nat)
    requires m <= |quotas|
    ensures SlicesOf(quotas[..m], legs) == SlicesOf(quotas, legs)[..m]
  {
    forall j | 0 <= j < m
      ensures SlicesOf(quotas[..m], legs)[j] == SlicesOf(quotas, legs)[j]
    {
      OffsetPrefix(quotas, m, j);
      OffsetPrefix(quotas, m, j + 1);
    }
  }

  /** The slices together are the legs up to the sum of the quotas. */
  lemma {:induction false} SlicesCover(quotas: Quotas, legs: seq<int>, m: nat)
    requires m <= |quotas|
    ensures Flatten(Values(SlicesOf(quotas, legs)[..m])) == Slice(legs, 0, Offset(quotas, m))
    decreases m
  {
    var slices := SlicesOf(quotas, legs);
    if m == 0 {
      assert Values(slices[..0]) == [];
    } else {
      var front, last := Values(slices[..m - 1]), slices[m - 1].1;
      var lo, hi := Offset(quotas, m - 1), Offset(quotas, m);
      SlicesCover(quotas, legs, m - 1);
      ValuesSnoc(slices, m);
      OffsetStep(quotas, m - 1);
      CoverStep(front, last, legs, lo, hi);
    }
  }

  /** Slices that cover the legs up to lo, followed by the slice from lo to hi, cover them up
      to hi. */
  lemma CoverStep(front: seq<seq<int>>, last: seq<int>, legs: seq<int>, lo: nat, hi: nat)
    requires lo <= hi
    requires Flatten(front) == Slice(legs, 0, lo) && last == Slice(legs, lo, hi)
    ensures Flatten(front + [last]) == Slice(legs, 0, hi)
  {
    FlattenAppend(front, last);
    SliceAdjacent(legs, 0, lo, hi);
  }

  /** The offset past the last entry is the sum of all the quotas. */
  lemma OffsetAll(quotas: Quotas)
    ensures Offset(quotas, |quotas|) == Sum(Values(quotas))
  {
    assert quotas[..|quotas|] == quotas;
  }

  /** When the quotas add up to the number of legs, every slice is exactly as long as its
      quota. */
  lemma SlicesExact(quotas: Quotas, legs: seq<int>, j: nat)
    requires Offset(quotas, |quotas|) == |legs|
    requires j < |quotas|
    ensures |SlicesOf(quotas, legs)[j].1| == quotas[j].1
  {
    var lo, hi := Offset(quotas, j), Offset(quotas, j + 1);
    OffsetStep(quotas, j);
    OffsetMonotone(quotas, j + 1, |quotas|);
    assert SlicesOf(quotas, legs)[j].1 == Slice(legs, lo, hi);
    SliceWithin(legs, lo, hi);
  }

  /** When the quotas add up to the number of legs, the slices together are the legs, in
      order. */
  lemma SlicesExhaust(quotas: Quotas, legs: seq<int>)
    requires Offset(quotas, |quotas|) == |legs|
    ensures Flatten(Values(SlicesOf(quotas, legs))) == legs
  {
    var n := |quotas|;
    SlicesCover(quotas, legs, n);
    assert SlicesOf(quotas, legs)[..n] == SlicesOf(quotas, legs);
  }

  /** "Docas saída" followed by exact slices: one entry per quota area, in order, each as
      long as its quota, no "Picking", and the slices together are all the legs. */
  lemma DocksThenSlices(r: AreaOps, lasts: seq<int>, quotas: Quotas, legs: seq<int>)
    requires PlainQuotas(quotas)
    requires r == [(OutboundDocks, lasts)] + SlicesOf(quotas, legs)
    requires Offset(quotas, |quotas|) == |legs|
    ensures |r| == 1 + |quotas|
    ensures r[0] == (OutboundDocks, lasts)
    ensures !HasKey(r, Picking)
    ensures forall j :: 0 <= j < |quotas| ==> r[1 + j].0 == quotas[j].0 && |r[1 + j].1| == quotas[j].1
    ensures Flatten(Values(r[1..])) == legs
  {
    var slices := SlicesOf(quotas, legs);
    SlicesAreas(quotas, legs, slices);
    SlicesExhaust(quotas, legs);
    ConsParts(r, (OutboundDocks, lasts), slices);
  }

  /** Exact slices carry the quota areas, none of them "Picking", each as long as its quota. */
  lemma SlicesAreas(quotas: Quotas, legs: seq<int>, slices: AreaOps)
    requires PlainQuotas(quotas)
    requires Offset(quotas, |quotas|) == |legs|
    requires slices == SlicesOf(quotas, legs)
    ensures forall j :: 0 <= j < |quotas| ==> slices[j].0 == quotas[j].0 && |slices[j].1| == quotas[j].1
    ensures forall j :: 0 <= j < |slices| ==> slices[j].0 != OutboundDocks && slices[j].0 != Picking
  {
    forall j | 0 <= j < |quotas|
      ensures |slices[j].1| == quotas[j].1
    {
      SlicesExact(quotas, legs, j);
    }
  }

  /** A head entry followed by the rest. */
  lemma ConsParts<T>(r: seq<T>, head: T, rest: seq<T>)
    requires r == [head] + rest
    ensures |r| == 1 + |rest| && r[0] == head && r[1..] == rest
    ensures forall j :: 0 <= j < |rest| ==> r[1 + j] == rest[j]
  {
  }

  /** The shuffled opening legs, as the slices are cut from them. */
  function OpeningLegs(total: int, k: int, draw: nat -> nat): seq<int>
    requires k != 0 || total < 1
  {
    Shuffle(Legs(total, k, First), draw)
  }

  /** For generator quotas: "Docas saída" comes first with exactly the closing legs, then one
      entry per quota area with its slice, then "Picking" exactly when there is a middle leg,
      holding the middle legs followed by the opening legs no quota took. */
  lemma AreaOperationsShape(quotas: Quotas, total: int, k: int, draw: nat -> nat)
    requires PlainQuotas(quotas)
    requires AreaOperations(quotas, total, k, draw).Success?
    ensures var r := AreaOperations(quotas, total, k, draw).value;
      var firsts := OpeningLegs(total, k, draw);
      var middles := Legs(total, k, Middle);
      && |r| == 1 + |quotas| + (if |middles| > 0 then 1 else 0)
      && r[..1 + |quotas|] == [(OutboundDocks, Legs(total, k, Last))] + SlicesOf(quotas, firsts)
      && (|middles| > 0 ==> r[1 + |quotas|] == (Picking, middles + Slice(firsts, Offset(quotas, |quotas|), |firsts|)))
      && (HasKey(r, Picking) <==> |middles| > 0)
  {
    var firsts := OpeningLegs(total, k, draw);
    DealtShape(quotas, Legs(total, k, Last), firsts);
    var dealt := AssignSlices([(OutboundDocks, Legs(total, k, Last))], quotas, firsts);
    var middles := Legs(total, k, Middle);
    if |middles| > 0 {
      PutNew(dealt.0, Picking, middles + Slice(firsts, dealt.1, |firsts|));
    }
  }

  /** The slicing for the generator's quotas: "Docas saída", then the quota slices, and no
      "Picking" yet. */
  lemma DealtShape(quotas: Quotas, lasts: seq<int>, firsts: seq<int>)
    requires PlainQuotas(quotas)
    ensures var dealt := AssignSlices([(OutboundDocks, lasts)], quotas, firsts);
      && dealt.0 == [(OutboundDocks, lasts)] + SlicesOf(quotas, firsts)
      && dealt.1 == Offset(quotas, |quotas|)
      && !HasKey(dealt.0, Picking)
  {
    var acc := [(OutboundDocks, lasts)];
    AssignSlicesShape(acc, quotas, firsts);
    var d := acc + SlicesOf(quotas, firsts);
    forall i | 0 <= i < |d| ensures d[i].0 != Picking {
      if i >= 1 {
        assert d[i].0 == quotas[i - 1].0;
      }
    }
  }

  /** Putting a new key appends its entry after the others. */
  lemma PutNew<V>(d: Dict<Area, V>, k: Area, v: V)
    requires !HasKey(d, k)
    ensures var r := Put(d, k, v);
      |r| == |d| + 1 && r[..|d|] == d && r[|d|] == (k, v) && HasKey(r, k)
  {
    var r := Put(d, k, v);
    assert r[|d|].0 == k;
  }

  /** Without middle legs the result is "Docas saída" followed by the quota slices. */
  lemma AreaOperationsWithoutMiddles(quotas: Quotas, total: int, k: int, draw: nat -> nat)
    requires PlainQuotas(quotas)
    requires AreaOperations(quotas, total, k, draw).Success?
    requires Legs(total, k, Middle) == []
    ensures AreaOperations(quotas, total, k, draw).value
      == [(OutboundDocks, Legs(total, k, Last))] + SlicesOf(quotas, OpeningLegs(total, k, draw))
  {
    AreaOperationsShape(quotas, total, k, draw);
    var r := AreaOperations(quotas, total, k, draw).value;
    assert r == r[..1 + |quotas|];
  }

  // ---------------------------------------------------------------------------------------
  // Operations per truck

  /** Task t becomes the operations 2t - 1 and 2t, whatever the operations per task. */
  function Expand(tasks: seq<int>): (r: seq<int>)
    ensures |r| == 2 * |tasks|
  {
    if |tasks| == 0 then []
    else
      var t := tasks[|tasks| - 1];
      Expand(tasks[..|tasks| - 1]) + [2 * t - 1, 2 * t]
  }

  /** The j-th task of a truck gives its operations at positions 2j and 2j + 1. */
  lemma {:induction false} ExpandElements(tasks: seq<int>)
    ensures forall j :: 0 <= j < |tasks| ==>
      Expand(tasks)[2 * j] == 2 * tasks[j] - 1 && Expand(tasks)[2 * j + 1] == 2 * tasks[j]
    decreases |tasks|
  {
    if |tasks| > 0 {
      ExpandElements(tasks[..|tasks| - 1]);
    }
  }

  lemma {:induction false} ExpandConcat(a: seq<int>, b: seq<int>)
    ensures Expand(a + b) == Expand(a) + Expand(b)
    decreases |b|
  {
    if |b| == 0 {
      assert a + b == a;
    } else {
      var b' := b[..|b| - 1];
      assert (a + b)[..|a + b| - 1] == a + b';
      ExpandConcat(a, b');
    }
  }

  /** `criar_operacoes_por_caminhao`: the operations of every truck. */
  function TruckOperations(trucks: seq<seq<int>>): (r: seq<seq<int>>)
    ensures |r| == |trucks|
    ensures forall t :: 0 <= t < |trucks| ==> r[t] == Expand(trucks[t])
  {
    seq(|trucks|, t requires 0 <= t < |trucks| => Expand(trucks[t]))
  }

  method OperationsPerTruck(trucks: seq<seq<int>>) returns (ops: seq<seq<int>>)
    ensures ops == TruckOperations(trucks)
  {
    ops := [];
    for t := 0 to |trucks|
      invariant ops == TruckOperations(trucks[..t])
    {
      var tasks := trucks[t];
      var own: seq<int> := [];
      for j := 0 to |tasks|
        invariant own == Expand(tasks[..j])
      {
        assert tasks[..j + 1][..j] == tasks[..j];
        own := own + [2 * tasks[j] - 1, 2 * tasks[j]];
      }
      assert tasks[..|tasks|] == tasks;
      ops := ops + [own];
    }
    assert trucks[..|trucks|] == trucks;
  }

  /** Expanding a permutation of tasks gives a permutation of the expanded operations. */
  lemma {:induction false} ExpandPermutation(a: seq<int>, b: seq<int>)
    requires multiset(a) == multiset(b)
    ensures multiset(Expand(a)) == multiset(Expand(b))
    decreases |a|
  {
    if |a| == 0 {
      assert |b| == |multiset(b)|;
    } else {
      var n := |a| - 1;
      var x := a[n];
      var init := a[..n];
      assert a == init + [x];
      assert x in multiset(b);
      var j :| 0 <= j < |b| && b[j] == x;
      var front, back := b[..j], b[j + 1..];
      assert b == front + [x] + back;
      var rest := front + back;
      assert multiset(b) == multiset(rest) + multiset{x};
      assert multiset(a) == multiset(init) + multiset{x};
      MultisetCancel(multiset(init), multiset(rest), x);
      ExpandPermutation(init, rest);
      ExpandSplit(front, x, back);
      ExpandSnoc(init, x);
    }
  }

  lemma ExpandSnoc(s: seq<int>, x: int)
    ensures multiset(Expand(s + [x])) == multiset(Expand(s)) + multiset{2 * x - 1, 2 * x}
  {
    assert (s + [x])[..|s|] == s;
    assert Expand(s + [x]) == Expand(s) + [2 * x - 1, 2 * x];
    assert multiset([2 * x - 1, 2 * x]) == multiset{2 * x - 1, 2 * x};
  }

  lemma MultisetCancel(p: multiset<int>, q: multiset<int>, x: int)
    requires p + multiset{x} == q + multiset{x}
    ensures p == q
  {
    assert p == (p + multiset{x}) - multiset{x};
  }

  lemma ExpandSplit(front: seq<int>, x: int, back: seq<int>)
    ensures multiset(Expand(front + [x] + back)) == multiset(Expand(front + back)) + multiset{2 * x - 1, 2 * x}
  {
    ExpandConcat(front + [x], back);
    ExpandConcat(front, [x]);
    ExpandConcat(front, back);
    assert Expand([x]) == [2 * x - 1, 2 * x] by {
      assert [x][..0] == [];
    }
  }

  /** Expanding the task list 1..t gives the operation list 1..2t. */
  lemma {:induction false} ExpandRange(t: nat)
    ensures Expand(Range(1, t + 1)) == Range(1, 2 * t + 1)
    decreases t
  {
    if t > 0 {
      assert Range(1, t + 1)[..t - 1] == Range(1, t);
      ExpandRange(t - 1);
    }
  }

  /** Flattening the trucks' operations is expanding the flattened task lists. */
  lemma {:induction false} TruckOperationsFlatten(trucks: seq<seq<int>>)
    ensures Flatten(TruckOperations(trucks)) == Expand(Flatten(trucks))
    decreases |trucks|
  {
    if |trucks| > 0 {
      var n := |trucks| - 1;
      assert TruckOperations(trucks)[..n] == TruckOperations(trucks[..n]);
      TruckOperationsFlatten(trucks[..n]);
      ExpandConcat(Flatten(trucks[..n]), trucks[n]);
    } else {
      assert Flatten(trucks) == [];
    }
  }
}
