/** `pipeline_gerar_todas_tarefas_e_operacoes`: the task and operation synthesis steps
    composed, and the invariants of the instance they produce together. The three random
    steps read separate draw streams. */
module TaskPipeline {
  import opened Wrappers
  import opened Seqs
  import opened Dicts
  import opened Rand
  import opened Areas
  import opened Tasks

  datatype Instance = Instance(
    quotas: Quotas,              // tasks per area
    areaOps: AreaOps,            // operations per area
    nTasks: nat,
    nOps: int,
    truckTasks: seq<seq<int>>,   // tasks of "Caminhão t+1" at index t
    truckOps: seq<seq<int>>,     // operations of "Caminhão t+1" at index t
    predecessors: seq<int>)      // predecessor of operation i at index i - 1

  function BuildInstance(nAreas: nat, nStorageTasks: nat, nDockTasks: nat, nTrucks: nat, k: int,
                         quotaDraw: nat -> nat, truckDraw: nat -> nat, legDraw: nat -> nat): Result<Instance>
  {
    match GeneratedQuotas(nAreas, nStorageTasks, nDockTasks, quotaDraw)
    case Failure(e) => Failure(e)
    case Success(quotas) => InstanceFrom(quotas, nTrucks, k, truckDraw, legDraw)
  }

  /** The steps after the quotas: task list, trucks, totals, predecessors, areas. */
  function InstanceFrom(quotas: Quotas, nTrucks: nat, k: int, truckDraw: nat -> nat, legDraw: nat -> nat): Result<Instance>
  {
    var tasks := Range(1, Sum(Values(quotas)) + 1);
    match TruckTasks(tasks, nTrucks, truckDraw)
    case Failure(e) => Failure(e)
    case Success(truckTasks) =>
      var totals := Totals(quotas, k);
      match PredecessorTable(totals.1, k)
      case Failure(e) => Failure(e)
      case Success(preds) =>
        match AreaOperations(quotas, totals.1, k, legDraw)
        case Failure(e) => Failure(e)
        case Success(areaOps) =>
          Success(Instance(quotas, areaOps, totals.0, totals.1, truckTasks, TruckOperations(truckTasks), preds))
  }

  /** A zero operations-per-task makes no operation, so neither the predecessor step nor the
      area step ever divides by it. */
  lemma LaterStepsSucceed(quotas: Quotas, k: int, legDraw: nat -> nat)
    ensures PredecessorTable(Totals(quotas, k).1, k).Success?
    ensures AreaOperations(quotas, Totals(quotas, k).1, k, legDraw).Success?
  {
  }

  /** The instance is built from the generated quotas by the composed steps. */
  lemma InstanceParts(quotas: Quotas, nTrucks: nat, k: int, truckDraw: nat -> nat, legDraw: nat -> nat)
    ensures InstanceFrom(quotas, nTrucks, k, truckDraw, legDraw).Failure?
      <==> TruckTasks(Range(1, Sum(Values(quotas)) + 1), nTrucks, truckDraw).Failure?
    ensures InstanceFrom(quotas, nTrucks, k, truckDraw, legDraw).Success? ==>
      var inst := InstanceFrom(quotas, nTrucks, k, truckDraw, legDraw).value;
      && inst.quotas == quotas
      && inst.truckTasks == TruckTasks(Range(1, Sum(Values(quotas)) + 1), nTrucks, truckDraw).value
      && inst.truckOps == TruckOperations(inst.truckTasks)
      && (inst.nTasks, inst.nOps) == Totals(quotas, k)
      && inst.predecessors == PredecessorTable(inst.nOps, k).value
      && inst.areaOps == AreaOperations(quotas, inst.nOps, k, legDraw).value
  {
    LaterStepsSucceed(quotas, k, legDraw);
  }

  /** The pipeline fails only when storage tasks must be drawn over no storage area, or when
      there are tasks and no trucks. */
  lemma BuildInstanceFailure(nAreas: nat, nStorageTasks: nat, nDockTasks: nat, nTrucks: nat, k: int,
                             quotaDraw: nat -> nat, truckDraw: nat -> nat, legDraw: nat -> nat)
    ensures BuildInstance(nAreas, nStorageTasks, nDockTasks, nTrucks, k, quotaDraw, truckDraw, legDraw).Failure?
      <==> (nAreas == 0 && nStorageTasks > 0) || (nTrucks == 0 && nStorageTasks + nDockTasks > 0)
  {
    GeneratedQuotasShape(nAreas, nStorageTasks, nDockTasks, quotaDraw);
    var q := GeneratedQuotas(nAreas, nStorageTasks, nDockTasks, quotaDraw);
    if q.Success? {
      InstanceFailure(q.value, nTrucks, k, truckDraw, legDraw);
    }
  }

  /** From given quotas, the steps fail only when there are tasks and no trucks. */
  lemma InstanceFailure(quotas: Quotas, nTrucks: nat, k: int, truckDraw: nat -> nat, legDraw: nat -> nat)
    ensures InstanceFrom(quotas, nTrucks, k, truckDraw, legDraw).Failure?
      <==> nTrucks == 0 && Sum(Values(quotas)) > 0
  {
    InstanceParts(quotas, nTrucks, k, truckDraw, legDraw);
    SumNonNegative(Values(quotas));
    DealFailure(Sum(Values(quotas)), nTrucks, truckDraw);
  }

  lemma DealFailure(t: int, nTrucks: nat, truckDraw: nat -> nat)
    requires t >= 0
    ensures TruckTasks(Range(1, t + 1), nTrucks, truckDraw).Failure? <==> nTrucks == 0 && t > 0
  {
  }

  /** The instance's parts, for successful quotas. */
  lemma BuildInstanceParts(nAreas: nat, nStorageTasks: nat, nDockTasks: nat, nTrucks: nat, k: int,
                           quotaDraw: nat -> nat, truckDraw: nat -> nat, legDraw: nat -> nat)
    requires BuildInstance(nAreas, nStorageTasks, nDockTasks, nTrucks, k, quotaDraw, truckDraw, legDraw).Success?
    ensures GeneratedQuotas(nAreas, nStorageTasks, nDockTasks, quotaDraw).Success?
    ensures var quotas := GeneratedQuotas(nAreas, nStorageTasks, nDockTasks, quotaDraw).value;
      && BuildInstance(nAreas, nStorageTasks, nDockTasks, nTrucks, k, quotaDraw, truckDraw, legDraw)
         == InstanceFrom(quotas, nTrucks, k, truckDraw, legDraw)
      && PlainQuotas(quotas)
      && Sum(Values(quotas)) == nStorageTasks + nDockTasks
  {
    GeneratedQuotasShape(nAreas, nStorageTasks, nDockTasks, quotaDraw);
    var quotas := GeneratedQuotas(nAreas, nStorageTasks, nDockTasks, quotaDraw).value;
    assert PlainQuotas(quotas) by {
      forall j | 0 <= j < |quotas|
        ensures quotas[j].0 != OutboundDocks && quotas[j].0 != Picking
      {
        if j < nAreas {
          assert quotas[j].0 == Storage(j + 1);
        }
      }
    }
  }

  /** Totals, predecessor keys and the task partition over trucks. */
  lemma InstanceTotals(nAreas: nat, nStorageTasks: nat, nDockTasks: nat, nTrucks: nat, k: int,
                       quotaDraw: nat -> nat, truckDraw: nat -> nat, legDraw: nat -> nat)
    requires BuildInstance(nAreas, nStorageTasks, nDockTasks, nTrucks, k, quotaDraw, truckDraw, legDraw).Success?
    ensures var inst := BuildInstance(nAreas, nStorageTasks, nDockTasks, nTrucks, k, quotaDraw, truckDraw, legDraw).value;
      && inst.nTasks == nStorageTasks + nDockTasks
      && inst.nOps == inst.nTasks * k
      && |inst.predecessors| == (if inst.nOps > 0 then inst.nOps else 0)
      && |inst.truckTasks| == nTrucks
      && multiset(Flatten(inst.truckTasks)) == multiset(Range(1, inst.nTasks + 1))
  {
    BuildInstanceParts(nAreas, nStorageTasks, nDockTasks, nTrucks, k, quotaDraw, truckDraw, legDraw);
    var quotas := GeneratedQuotas(nAreas, nStorageTasks, nDockTasks, quotaDraw).value;
    InstanceParts(quotas, nTrucks, k, truckDraw, legDraw);
    TruckTasksPartition(Range(1, Sum(Values(quotas)) + 1), nTrucks, truckDraw);
  }

  /** Dealing out the tasks 1..t and expanding them, the trucks hold operations that are a
      permutation of 1..2t. */
  lemma DealtOperations(t: nat, nTrucks: nat, truckDraw: nat -> nat)
    requires TruckTasks(Range(1, t + 1), nTrucks, truckDraw).Success?
    ensures multiset(Flatten(TruckOperations(TruckTasks(Range(1, t + 1), nTrucks, truckDraw).value)))
      == multiset(Range(1, 2 * t + 1))
  {
    var trucks := TruckTasks(Range(1, t + 1), nTrucks, truckDraw).value;
    TruckTasksPartition(Range(1, t + 1), nTrucks, truckDraw);
    TruckOperationsFlatten(trucks);
    ExpandPermutation(Flatten(trucks), Range(1, t + 1));
    ExpandRange(t);
  }

  /** With two operations per task, the trucks' operation lists partition 1..nOps. */
  lemma TruckOperationsPartition(nAreas: nat, nStorageTasks: nat, nDockTasks: nat, nTrucks: nat,
                                 quotaDraw: nat -> nat, truckDraw: nat -> nat, legDraw: nat -> nat)
    requires BuildInstance(nAreas, nStorageTasks, nDockTasks, nTrucks, 2, quotaDraw, truckDraw, legDraw).Success?
    ensures var inst := BuildInstance(nAreas, nStorageTasks, nDockTasks, nTrucks, 2, quotaDraw, truckDraw, legDraw).value;
      multiset(Flatten(inst.truckOps)) == multiset(Range(1, inst.nOps + 1))
  {
    BuildInstanceParts(nAreas, nStorageTasks, nDockTasks, nTrucks, 2, quotaDraw, truckDraw, legDraw);
    var quotas := GeneratedQuotas(nAreas, nStorageTasks, nDockTasks, quotaDraw).value;
    InstanceOperationsPartition(quotas, nTrucks, truckDraw, legDraw);
  }

  /** The same, for an instance built from given quotas. */
  lemma InstanceOperationsPartition(quotas: Quotas, nTrucks: nat, truckDraw: nat -> nat, legDraw: nat -> nat)
    requires InstanceFrom(quotas, nTrucks, 2, truckDraw, legDraw).Success?
    ensures var inst := InstanceFrom(quotas, nTrucks, 2, truckDraw, legDraw).value;
      multiset(Flatten(inst.truckOps)) == multiset(Range(1, inst.nOps + 1))
  {
    InstanceParts(quotas, nTrucks, 2, truckDraw, legDraw);
    var t := Sum(Values(quotas));
    var inst := InstanceFrom(quotas, nTrucks, 2, truckDraw, legDraw).value;
    assert inst.nOps == 2 * t;
    DealtOperations(t, nTrucks, truckDraw);
  }

  /** With any other number of operations per task, the expansion still makes two operations
      per task, so the trucks' operations cannot be the operations 1..nOps. */
  lemma TruckOperationsMismatch(nAreas: nat, nStorageTasks: nat, nDockTasks: nat, nTrucks: nat, k: int,
                                quotaDraw: nat -> nat, truckDraw: nat -> nat, legDraw: nat -> nat)
    requires k != 2 && nStorageTasks + nDockTasks > 0
    requires BuildInstance(nAreas, nStorageTasks, nDockTasks, nTrucks, k, quotaDraw, truckDraw, legDraw).Success?
    ensures var inst := BuildInstance(nAreas, nStorageTasks, nDockTasks, nTrucks, k, quotaDraw, truckDraw, legDraw).value;
      multiset(Flatten(inst.truckOps)) != multiset(Range(1, inst.nOps + 1))
  {
    BuildInstanceParts(nAreas, nStorageTasks, nDockTasks, nTrucks, k, quotaDraw, truckDraw, legDraw);
    var quotas := GeneratedQuotas(nAreas, nStorageTasks, nDockTasks, quotaDraw).value;
    InstanceParts(quotas, nTrucks, k, truckDraw, legDraw);
    var t := nStorageTasks + nDockTasks;
    DealtOperations(t, nTrucks, truckDraw);
    OperationCountMismatch(t, k);
  }

  lemma OperationCountMismatch(t: nat, k: int)
    requires t > 0 && k != 2
    ensures |multiset(Range(1, 2 * t + 1))| != |multiset(Range(1, t * k + 1))|
  {
    if k > 2 {
      assert t * k == t * (k - 2) + 2 * t;
      Numbers.MulAtLeast(k - 2, t);
      assert (k - 2) * t == t * (k - 2);
    } else if k == 1 {
    } else {
      assert t * k <= 0 by {
        if k < 0 {
          Numbers.MulAtLeast(-k, t);
          assert (-k) * t == -(t * k);
        }
      }
    }
  }

  /** With two operations per task over t tasks: "Docas saída" holds exactly the even
      operations, there is no "Picking" entry, and every quota area holds exactly its quota of
      odd operations, the areas together holding every odd operation once. */
  lemma AreaOperationsOfPairs(quotas: Quotas, t: nat, draw: nat -> nat)
    requires PlainQuotas(quotas)
    requires Sum(Values(quotas)) == t
    ensures AreaOperations(quotas, 2 * t, 2, draw).Success?
    ensures var r := AreaOperations(quotas, 2 * t, 2, draw).value;
      && |r| == 1 + |quotas|
      && r[0] == (OutboundDocks, Legs(2 * t, 2, Last))
      && !HasKey(r, Picking)
      && (forall j :: 0 <= j < |quotas| ==> r[1 + j].0 == quotas[j].0 && |r[1 + j].1| == quotas[j].1)
      && multiset(Flatten(Values(r[1..]))) == multiset(Legs(2 * t, 2, First))
  {
    LegsOfPairs(2 * t, 0);
    LegsOfPairsCount(t);
    AreaOperationsWithoutMiddles(quotas, 2 * t, 2, draw);
    var firsts := OpeningLegs(2 * t, 2, draw);
    assert |firsts| == t by {
      assert |multiset(firsts)| == |multiset(Legs(2 * t, 2, First))|;
    }
    OffsetAll(quotas);
    var r := AreaOperations(quotas, 2 * t, 2, draw).value;
    DocksThenSlices(r, Legs(2 * t, 2, Last), quotas, firsts);
  }

  /** With two operations per task, the instance's areas split the operations by parity. */
  lemma InstanceAreasOfPairs(nAreas: nat, nStorageTasks: nat, nDockTasks: nat, nTrucks: nat,
                             quotaDraw: nat -> nat, truckDraw: nat -> nat, legDraw: nat -> nat)
    requires BuildInstance(nAreas, nStorageTasks, nDockTasks, nTrucks, 2, quotaDraw, truckDraw, legDraw).Success?
    ensures var inst := BuildInstance(nAreas, nStorageTasks, nDockTasks, nTrucks, 2, quotaDraw, truckDraw, legDraw).value;
      var r := inst.areaOps;
      && inst.nOps == 2 * inst.nTasks
      && |r| == 1 + |inst.quotas|
      && r[0] == (OutboundDocks, Legs(inst.nOps, 2, Last))
      && !HasKey(r, Picking)
      && (forall j :: 0 <= j < |inst.quotas| ==> r[1 + j].0 == inst.quotas[j].0 && |r[1 + j].1| == inst.quotas[j].1)
      && multiset(Flatten(Values(r[1..]))) == multiset(Legs(inst.nOps, 2, First))
  {
    BuildInstanceParts(nAreas, nStorageTasks, nDockTasks, nTrucks, 2, quotaDraw, truckDraw, legDraw);
    var quotas := GeneratedQuotas(nAreas, nStorageTasks, nDockTasks, quotaDraw).value;
    InstanceParts(quotas, nTrucks, 2, truckDraw, legDraw);
    var t := nStorageTasks + nDockTasks;
    var inst := InstanceFrom(quotas, nTrucks, 2, truckDraw, legDraw).value;
    assert inst.nOps == 2 * t;
    AreaOperationsOfPairs(quotas, t, legDraw);
  }

  lemma PredecessorsOfFourPairs()
    ensures PredecessorsUpTo(8, 2) == [0, 1, 0, 3, 0, 5, 0, 7]
  {
    var p := PredecessorsUpTo(8, 2);
    assert p[0] == 0 && p[1] == 1 && p[2] == 0 && p[3] == 3;
    assert p[4] == 0 && p[5] == 5 && p[6] == 0 && p[7] == 7;
  }

  lemma ClosingLegsOfFourPairs()
    ensures Legs(8, 2, Last) == [2, 4, 6, 8]
  {
    LegOfTwo(1); LegOfTwo(2); LegOfTwo(3); LegOfTwo(4);
    LegOfTwo(5); LegOfTwo(6); LegOfTwo(7); LegOfTwo(8);
    assert Legs(2, 2, Last) == [2];
    assert Legs(4, 2, Last) == [2, 4];
    assert Legs(6, 2, Last) == [2, 4, 6];
  }

  /** Two storage areas with three storage tasks, one dock task, two trucks and two
      operations per task: whatever the draws, 4 tasks, operations 1..8, predecessors
      1:0 2:1 3:0 4:3 5:0 6:5 7:0 8:7, "Docas saída" = [2, 4, 6, 8] and no "Picking". */
  lemma WorkedExample(quotaDraw: nat -> nat, truckDraw: nat -> nat, legDraw: nat -> nat)
    ensures BuildInstance(2, 3, 1, 2, 2, quotaDraw, truckDraw, legDraw).Success?
    ensures var inst := BuildInstance(2, 3, 1, 2, 2, quotaDraw, truckDraw, legDraw).value;
      && inst.nTasks == 4
      && inst.nOps == 8
      && inst.predecessors == [0, 1, 0, 3, 0, 5, 0, 7]
      && |inst.areaOps| == 4
      && inst.areaOps[0] == (OutboundDocks, [2, 4, 6, 8])
      && !HasKey(inst.areaOps, Picking)
  {
    BuildInstanceFailure(2, 3, 1, 2, 2, quotaDraw, truckDraw, legDraw);
    InstanceTotals(2, 3, 1, 2, 2, quotaDraw, truckDraw, legDraw);
    InstanceAreasOfPairs(2, 3, 1, 2, quotaDraw, truckDraw, legDraw);
    BuildInstanceParts(2, 3, 1, 2, 2, quotaDraw, truckDraw, legDraw);
    var quotas := GeneratedQuotas(2, 3, 1, quotaDraw).value;
    InstanceParts(quotas, 2, 2, truckDraw, legDraw);
    PredecessorsOfFourPairs();
    ClosingLegsOfFourPairs();
  }
}
