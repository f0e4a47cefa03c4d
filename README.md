# Crossdocking instance generator — a verified Dafny model

This project models the core of a generator of synthetic crossdocking scheduling instances
and proves properties of it. The generator:

- synthesises tasks and their operations: per-area task quotas, sequential task numbers,
  the round-robin dealing of shuffled tasks to trucks, predecessors, the distribution of
  operations over the areas and the two operations of every task (`tasks.dfy`,
  `task_pipeline.dfy`);
- lays out the crossdock on a grid: the inbound docks, Picking and the outbound docks side
  by side on the top row, with the storage areas in equal blocks beneath them
  (`layout.dfy`), and labels every placed operation by the role its point plays
  (`labels.dfy`, `sorting.dfy`);
- places every operation on a grid point of its area, giving each truck an outbound dock
  from a pool that is used up before it is refilled (`grid.dfy`, `docks.dfy`,
  `allocation.dfy`);
- classifies the forklifts as fast or slow and by the number of areas they may serve, and
  derives which forklifts may perform each operation (`forklifts.dfy`,
  `eligibility.dfy`);
- computes the timing tables: processing times from Manhattan distances and forklift speeds,
  setup and blocking times between pairs of operations, and the trucks' due dates
  (`distance.dfy`, `processing_time.dfy`, `pairs.dfy`, `setup_time.dfy`,
  `blocking_time.dfy`, `due_dates.dfy`);
- writes the instance as an AMPL data file, one `escrever_arquivo` line at a time
  (`ampl_writer.dfy`: the file is an object whose list of written lines the `print_*`
  methods extend);
- reads a solver's result log back (`log_parser.dfy`) and computes the makespan and the
  delay metrics of the schedule it describes (`metrics.dfy`).

`wrappers.dfy`, `dicts.dfy`, `seqs.dfy`, `numbers.dfy`, `text.dfy`, `rand.dfy` and
`areas.dfy` hold what the rest shares: the exceptions the code raises as a `Result`,
insertion-ordered dictionaries, Python's numeric and string built-ins, the draws of
`random` as explicit inputs, and the area names.

Where the code loops and mutates, its model is a method with a loop, proved equal to a
specification function; the properties are then lemmas about that function. A raising call
is modelled as a `Failure` carrying the exception, and every method's result agrees with
the specification on that path too.

Two places where the code's own documentation disagrees with it follow the code:
`calcular_datas_entrega` documents factor ranges of 0.5–1 for late and 1–1.5 for early
trucks, but draws from [1.1, 2] and [0.1, 0.9], tests the early flag first and otherwise
draws from [0.1, 2] (`DueDates.Alpha`); and
`create_layout_and_coordinate_matrix_with_grid` documents a tuple but returns only the
area map (`Layout.LayoutKeys` and the members beside it). Two behaviours are modelled as
written because they are part of what the generator produces: with two operations per task
no `'Picking'` entry is created and the leftover starting legs are dropped, and the operation
list of truck t always holds `2t-1, 2t` for each of its tasks t, whatever the number of
operations per task.

## Model

| member | source | states |
|---|---|---|
| Tasks.Hits | app/parametros_basicos/tarefas_operacoes.py:29-32 | the number of draws that pick one storage area is at most the number of draws |
| Tasks.StorageCounts | app/parametros_basicos/tarefas_operacoes.py:28-32 | there is one counter per storage area |
| Tasks.StorageCountsSum | app/parametros_basicos/tarefas_operacoes.py:28-32 | the counters add up to the number of storage tasks: each draw is counted exactly once |
| Tasks.StorageEntries | app/parametros_basicos/tarefas_operacoes.py:35-37 | entry i is "Estoque i+1" with the i-th counter |
| Tasks.GenerateQuotas | app/parametros_basicos/tarefas_operacoes.py:3-43 | the counting, naming and docks loops compute the generated quotas, including the error of `randint(0, -1)` when there are no areas |
| Tasks.GeneratedQuotasShape | app/parametros_basicos/tarefas_operacoes.py:25-43 | generation fails exactly when there are no storage areas but storage tasks; otherwise the keys are "Estoque 1".."Estoque n" in order and then "Docas entrada" with the dock tasks, the storage quotas sum to the storage tasks, all quotas to the grand total, and keys are distinct |
| Tasks.TaskList | app/parametros_basicos/tarefas_operacoes.py:45-66 | the nested loops number the tasks 1..T, T the sum of the quotas |
| Tasks.TaskListIds | app/parametros_basicos/tarefas_operacoes.py:60-66 | the task list holds exactly 1..T, strictly increasing, T of them |
| Tasks.TotalsCountTasks | app/parametros_basicos/tarefas_operacoes.py:93-115 | the task total is the length of the task list and the operation total is that times the operations per task |
| Tasks.Lanes | app/parametros_basicos/tarefas_operacoes.py:87-90 | there is one list per truck |
| Tasks.DistributeTasks | app/parametros_basicos/tarefas_operacoes.py:68-91 | shuffling and the round-robin loop compute the truck task lists; no trucks with tasks fails like `i % 0` |
| Tasks.LaneLength | app/parametros_basicos/tarefas_operacoes.py:88-90 | truck t gets \|s\|/n tasks, plus one when t < \|s\| mod n |
| Tasks.LanesBalanced | app/parametros_basicos/tarefas_operacoes.py:88-90 | the trucks' task counts differ by at most one |
| Tasks.LaneElements | app/parametros_basicos/tarefas_operacoes.py:88-90 | the q-th task of truck t is the task at position q*n+t of the shuffled list |
| Tasks.LanesPartition | app/parametros_basicos/tarefas_operacoes.py:88-90 | the trucks' lists together are a permutation of the dealt list |
| Tasks.TruckTasksPartition | app/parametros_basicos/tarefas_operacoes.py:86-91 | every task is handed to exactly one truck |
| Tasks.PredecessorsUpTo | app/parametros_basicos/tarefas_operacoes.py:135-140 | entry i-1 is the predecessor of operation i |
| Tasks.Predecessors | app/parametros_basicos/tarefas_operacoes.py:117-142 | the loop computes the predecessor table, failing with a zero division when there are operations and zero operations per task |
| Tasks.PredecessorBounds | app/parametros_basicos/tarefas_operacoes.py:136-140 | keys are 1..n; a predecessor is 0 exactly at a task's first operation and otherwise the previous operation, so 0 <= pred(i) < i |
| Tasks.PredecessorChain | app/parametros_basicos/tarefas_operacoes.py:136-140 | following predecessors from operation i visits (i-1) mod k + 1 operations back to its task's first one |
| Tasks.LegsMembership | app/parametros_basicos/tarefas_operacoes.py:176-185 | an operation is in a leg list exactly when it is in 1..total and has that kind (first, last, middle) |
| Tasks.LegsIncreasing | app/parametros_basicos/tarefas_operacoes.py:176-185 | each leg list is strictly increasing |
| Tasks.LegsPartition | app/parametros_basicos/tarefas_operacoes.py:176-185 | the three lists together are a permutation of 1..total |
| Tasks.LegsOfPairs | app/parametros_basicos/tarefas_operacoes.py:176-185 | with two operations per task, odd operations open tasks, even ones close them and none is in the middle |
| Tasks.SplitLegs | app/parametros_basicos/tarefas_operacoes.py:172-185 | the loop fails exactly with a zero division for zero operations per task and a non-empty range, and otherwise returns the three leg lists |
| Tasks.CutSlices | app/parametros_basicos/tarefas_operacoes.py:189-194 | the slicing loop computes the slice assignment and the final offset |
| Tasks.AssignSlicesShape | app/parametros_basicos/tarefas_operacoes.py:189-194 | one entry per quota area is appended in order, holding consecutive slices, and the offset ends at the sum of the quotas |
| Tasks.SlicesCover | app/parametros_basicos/tarefas_operacoes.py:189-194 | the first m slices together are the legs up to the m-th offset |
| Tasks.OffsetAll | app/parametros_basicos/tarefas_operacoes.py:189-194 | the offset past the last entry is the sum of the quotas |
| Tasks.SlicesExact | app/parametros_basicos/tarefas_operacoes.py:189-194 | when the quotas sum to the number of legs every slice is exactly its quota long |
| Tasks.SlicesExhaust | app/parametros_basicos/tarefas_operacoes.py:189-194 | when the quotas sum to the number of legs the slices together are all the legs, in order |
| Tasks.DocksThenSlices | app/parametros_basicos/tarefas_operacoes.py:167-199 | "Docas saída" comes first, then one entry per quota area as long as its quota, no "Picking", and the slices together are the legs |
| Tasks.DistributeOperations | app/parametros_basicos/tarefas_operacoes.py:144-201 | the method computes the area operations: closing legs, shuffled opening legs cut by quota, and "Picking" |
| Tasks.AreaOperationsShape | app/parametros_basicos/tarefas_operacoes.py:167-201 | "Docas saída" holds exactly the closing legs, one slice per quota area follows, and "Picking" is present exactly when there are middle legs and holds them followed by the left-over opening legs |
| Tasks.AreaOperationsWithoutMiddles | app/parametros_basicos/tarefas_operacoes.py:196-201 | without middle legs there is no "Picking" entry |
| Tasks.Expand | app/parametros_basicos/tarefas_operacoes.py:223-226 | each task gives two operations |
| Tasks.ExpandElements | app/parametros_basicos/tarefas_operacoes.py:223-226 | the j-th task t of a truck gives 2t-1 and 2t at positions 2j and 2j+1 |
| Tasks.TruckOperations | app/parametros_basicos/tarefas_operacoes.py:203-228 | truck t's operations are the expansion of its tasks |
| Tasks.OperationsPerTruck | app/parametros_basicos/tarefas_operacoes.py:219-228 | the nested loops compute every truck's operations |
| Tasks.ExpandPermutation | app/parametros_basicos/tarefas_operacoes.py:223-226 | expanding a permutation of tasks gives a permutation of their operations |
| Tasks.ExpandRange | app/parametros_basicos/tarefas_operacoes.py:223-226 | expanding the tasks 1..t gives the operations 1..2t |
| Tasks.TruckOperationsFlatten | app/parametros_basicos/tarefas_operacoes.py:219-228 | all trucks' operations together are the expansion of all their tasks together |
| TaskPipeline.LaterStepsSucceed | app/parametros_basicos/pipeline_pb.py:21-27 | once the trucks are dealt, the totals, predecessor and area steps cannot fail: zero operations per task makes no operations to divide |
| TaskPipeline.InstanceParts | app/parametros_basicos/pipeline_pb.py:12-40 | the instance is built from the generated quotas by the composed steps |
| TaskPipeline.BuildInstanceFailure | app/parametros_basicos/pipeline_pb.py:12-18 | the pipeline fails exactly when storage tasks must be drawn over no storage area, or when there are tasks and no trucks |
| TaskPipeline.BuildInstanceParts | app/parametros_basicos/pipeline_pb.py:12-40 | each field of the instance is the output of its own step |
| TaskPipeline.InstanceTotals | app/parametros_basicos/pipeline_pb.py:15-24 | there are storage plus dock tasks, tasks times k operations, one predecessor per operation, one list per truck, and the trucks' tasks are a permutation of 1..T |
| TaskPipeline.DealtOperations | app/parametros_basicos/pipeline_pb.py:15-30 | dealing the tasks 1..t and expanding them gives operations that are a permutation of 1..2t |
| TaskPipeline.TruckOperationsPartition | app/parametros_basicos/pipeline_pb.py:21-30 | with two operations per task the trucks' operation lists partition 1..n_total_operacoes |
| TaskPipeline.TruckOperationsMismatch | app/parametros_basicos/pipeline_pb.py:21-30 | with any other number of operations per task and at least one task, the trucks' operations are not the operations 1..n_total_operacoes |
| TaskPipeline.OperationCountMismatch | app/parametros_basicos/pipeline_pb.py:21-30 | 2t operations differ in number from t*k when k is not 2 |
| TaskPipeline.AreaOperationsOfPairs | app/parametros_basicos/pipeline_pb.py:27 | with two operations per task, "Docas saída" holds the even operations, there is no "Picking", every quota area holds exactly its quota and the areas together hold the odd operations |
| TaskPipeline.InstanceAreasOfPairs | app/parametros_basicos/pipeline_pb.py:12-27 | with two operations per task the instance's areas split the operations by parity |
| TaskPipeline.WorkedExample | app/parametros_basicos/pipeline_pb.py:5-40 | two storage areas, three storage tasks, one dock task, two trucks and two operations per task give, whatever the draws, 4 tasks, operations 1..8, predecessors [0,1,0,3,0,5,0,7] and "Docas saída" = [2,4,6,8] |
| Layout.DivisorsUpToMembership | app/layout/figura_layout.py:46-48 | d is among the divisors up to m exactly when 1 <= d <= m and d divides n |
| Layout.DivisorsUpToIncreasing | app/layout/figura_layout.py:46-48 | the divisors are listed in increasing order |
| Layout.DivisorsShape | app/layout/figura_layout.py:46-50 | `find_divisors(n)` lists exactly the divisors 1..n of n, increasing |
| Layout.LastDivisor | app/layout/figura_layout.py:50-55 | the last divisor of a positive width is the width itself |
| Layout.NoDivisorBetween | app/layout/figura_layout.py:50-53 | no divisor lies between two consecutive listed divisors |
| Layout.BlockUnitsShape | app/layout/figura_layout.py:50-55 | the storage block width divides the top row's width; with more than two divisors it is the largest proper divisor, otherwise the whole width |
| Layout.Columns | app/layout/figura_layout.py:57 | the number of storage columns is at least 1 and the columns fill the top row's width exactly |
| Layout.Rows | app/layout/figura_layout.py:62 | the storage rows hold every storage area and the last row is not empty |
| Layout.StorageEntries | app/layout/figura_layout.py:109-118 | storage area i+1 gets the rectangle of its row and column |
| Layout.BuildLayout | app/layout/figura_layout.py:4-120 | the method computes the layout's rectangles, failing when the top row's width is zero (`0 // 0`, line 57) |
| Layout.LayoutKeys | app/layout/figura_layout.py:83-120 | the layout fails exactly for a zero top-row width; otherwise its keys are "Docas entrada", "Picking", "Docas saída", then "Estoque 1".."Estoque n", all distinct |
| Layout.LayoutTopRow | app/layout/figura_layout.py:33-106 | the three top rectangles sit side by side above the storage rows, docks 2 units wide and all num_docas+1 units high |
| Layout.ColumnsFill | app/layout/figura_layout.py:57-59 | the storage columns fill the top row's width |
| Layout.StorageCell | app/layout/figura_layout.py:110-112 | every storage area's row and column lie within the grid of blocks |
| Layout.LayoutStorageBounds | app/layout/figura_layout.py:110-118 | every storage rectangle lies within the top row's width and below the docks |
| Layout.StorageRectsDisjoint | app/layout/figura_layout.py:110-118 | two different storage blocks do not overlap |
| Layout.LayoutStoragesDisjoint | app/layout/figura_layout.py:108-118 | the layout's storage rectangles are pairwise disjoint |
| Layout.ScaleAll | app/layout/figura_layout.py:83-118 | scaling keeps each area and scales its rectangle |
| Layout.LayoutOnGrid | app/layout/figura_layout.py:41-118 | the layout with spacing gs is the unit layout scaled by gs |
| Labels.Row | app/layout/figura_layout.py:151-152 | one entry per placed operation of an area, in order |
| Labels.PointOfSome | app/layout/figura_layout.py:150-189 | a label has a point exactly when some placed operation emits it |
| Labels.LastPointAt | app/layout/figura_layout.py:150-189 | a label emitted several times keeps the point of its last emission |
| Labels.FirstPointAt | app/layout/figura_layout.py:161-166 | the shared Picking label keeps the point of its first emission |
| Labels.LabelStepLookup | app/layout/figura_layout.py:153-189 | one step of the loop records exactly the points its labels get |
| Labels.LabelStepDistinct | app/layout/figura_layout.py:153-189 | the label map keeps distinct keys |
| Labels.LabelStepInvariant | app/layout/figura_layout.py:150-194 | each step of the loop preserves the relation between the map and the entries seen |
| Labels.RankTies | app/layout/figura_layout.py:212 | only "*d,*o" and "0o" share a sort key |
| Labels.OrderLabels | app/layout/figura_layout.py:211-213 | the labels are re-inserted in sorted key order with the same points |
| Labels.LabelMap | app/layout/figura_layout.py:123-215 | the returned map has distinct labels sorted by (operation, origin before destination), and each label maps to the point the loop gives it |
| Sorting.InsertBy | app/layout/figura_layout.py:212 | insertion keeps the elements |
| Sorting.InsertBySorted | app/layout/figura_layout.py:212 | inserting into a sorted list keeps it sorted |
| Sorting.SortBy | app/layout/figura_layout.py:212 | `sorted(..., key=...)` returns a sorted permutation |
| Sorting.SortByMembers | app/layout/figura_layout.py:212 | sorting keeps exactly the same members |
| Sorting.SortByDistinct | app/layout/figura_layout.py:212 | sorting distinct elements gives distinct elements |
| Sorting.Rebuild | app/layout/figura_layout.py:211-213 | rebuilding a dict in the order of given keys holds exactly those keys, in that order, with their values |
| Sorting.SortedKeys | app/layout/figura_layout.py:212 | the sorted keys of a dict are its keys, each once |
| Grid.Arange | app/layout/alocacao.py:75-155 | `np.arange(start, stop, step)` has ceil((stop-start)/step) values, the k-th being start + k*step |
| Grid.ArangeDown | app/layout/alocacao.py:82 | `np.arange(start, stop, -step)` has ceil((start-stop)/step) values, the k-th being start - k*step |
| Grid.ArangeMembership | app/layout/alocacao.py:75-155 | the upward grid holds exactly the values from start up to below stop that lie a whole number of steps from start |
| Grid.ArangeDownMembership | app/layout/alocacao.py:82 | the downward grid holds exactly the values from start down to above stop a whole number of steps from start |
| Grid.ArangeIncreasing | app/layout/alocacao.py:75-155 | the upward grid is strictly increasing |
| Grid.ArangeDownDistinct | app/layout/alocacao.py:82 | the downward grid has no repeated value |
| Grid.Product | app/layout/alocacao.py:130 | the list of pairs has \|xs\|*\|ys\| entries |
| Grid.ProductMembership | app/layout/alocacao.py:130 | a pair is a candidate exactly when its x and its y are grid values |
| Grid.ProductDistinct | app/layout/alocacao.py:130 | distinct grids give distinct pairs |
| Distance.Manhattan | app/parametros_avancados/utils.py:2-14 | the distance is never negative |
| Distance.ManhattanSymmetric | app/parametros_avancados/utils.py:2-14 | the distance is symmetric |
| Distance.ManhattanZero | app/parametros_avancados/utils.py:2-14 | the distance is zero exactly between equal points |
| Distance.ManhattanTriangle | app/parametros_avancados/utils.py:2-14 | the distance obeys the triangle inequality |
| Docks.DockRun | app/layout/alocacao.py:21-32 | one dock is drawn per truck |
| Docks.DockStep | app/layout/alocacao.py:23-32 | a step appends one dock and keeps the earlier ones |
| Docks.Refill | app/layout/alocacao.py:23-25 | the pool is never empty when a dock is drawn |
| Docks.AssignDocks | app/layout/alocacao.py:4-34 | the loop computes the dock association, failing when there are trucks and no docks (`random.choice([])`) |
| Docks.RoundStart | app/layout/alocacao.py:23-25 | the current round began at or before the current truck |
| Docks.RoundStartStep | app/layout/alocacao.py:23-25 | a new round begins exactly when the pool has been used up |
| Docks.InvariantStep | app/layout/alocacao.py:23-29 | a draw keeps the pool and the current round's docks together equal to 1..num_docas |
| Docks.DockRunInvariant | app/layout/alocacao.py:21-32 | that pool invariant holds after every truck |
| Docks.NewDockFresh | app/layout/alocacao.py:28-29 | the drawn dock is in 1..num_docas and not yet used in the current round |
| Docks.ShapeStep | app/layout/alocacao.py:28-32 | a draw keeps every dock in range and no dock repeated within a round |
| Docks.DockAssignmentShape | app/layout/alocacao.py:4-34 | the association fails exactly when there are trucks and no docks; otherwise every truck gets a dock in 1..num_docas and trucks in the same block of num_docas get different docks |
| Allocation.InteriorMembership | app/layout/alocacao.py:75-155 | an `arange` coordinate lies strictly inside the area, on the grid |
| Allocation.DockYsShape | app/layout/alocacao.py:80-88 | dock d's row is d grid steps below the top of the outbound rectangle |
| Allocation.DockYsOfLayout | app/layout/alocacao.py:80-88 | an outbound rectangle num_docas+1 steps high has exactly num_docas dock rows |
| Allocation.EvenPointsShape | app/layout/alocacao.py:100-104 | placing a truck's operations fails exactly when it has an even operation and no x to draw; otherwise exactly its even operations get a drawn x on the dock row |
| Allocation.DockTruck | app/layout/alocacao.py:91-104 | the truck that places an even operation owns it and has a dock |
| Allocation.DockTruckOfOwner | app/layout/alocacao.py:91-104 | an even operation is placed by the last truck holding it |
| Allocation.OutboundPointsShape | app/layout/alocacao.py:70-104 | outbound placement fails exactly when an associated truck's dock has no row (`KeyError`) or an even operation has no x to draw; otherwise it holds exactly the even operations of associated trucks, each on its truck's dock row |
| Allocation.PlaceOutbound | app/layout/alocacao.py:70-104 | the loops compute the outbound placement |
| Allocation.OddsMembership | app/layout/alocacao.py:122-137 | the odd operations of a list are exactly its odd members |
| Allocation.OddOpsMembership | app/layout/alocacao.py:118-137 | an operation is visited for Picking exactly when it is odd and belongs to some truck |
| Allocation.SharedPointsShape | app/layout/alocacao.py:112-125 | with a shared Picking point every odd operation maps to the centre and nothing else is placed |
| Allocation.PlacePickingShared | app/layout/alocacao.py:112-125 | the loops compute the shared-point placement |
| Allocation.Available | app/layout/alocacao.py:138 | the available points are exactly the candidates not yet occupied |
| Allocation.FreeWhileFewer | app/layout/alocacao.py:138-145 | while fewer points have been handed out than there are candidates a free one remains |
| Allocation.PickStepInvariant | app/layout/alocacao.py:138-146 | each draw keeps the occupied set equal to the points handed out, with no point handed out twice until the candidates run out |
| Allocation.PickRunShape | app/layout/alocacao.py:132-146 | distributed Picking fails exactly when there are odd operations and no candidate points; otherwise one candidate is handed out per visit and each operation sits at the point of its last visit |
| Allocation.PickRunDistinct | app/layout/alocacao.py:138-146 | no two visits share a point until every candidate has been used |
| Allocation.CandidatesShape | app/layout/alocacao.py:128-130 | the candidate points are distinct and exactly the interior grid points of the Picking rectangle |
| Allocation.PlacePickingDistributed | app/layout/alocacao.py:126-146 | the loops compute the distributed placement |
| Allocation.InteriorPointsShape | app/layout/alocacao.py:154-160 | another area's placement fails exactly when it has operations and no x or no y to draw; otherwise exactly its operations get a drawn interior point |
| Allocation.InteriorChoice | app/layout/alocacao.py:158-159 | a drawn coordinate lies strictly inside the area, on the grid |
| Allocation.OtherAreasShape | app/layout/alocacao.py:149-160 | the remaining areas fail exactly when one of them fails; otherwise each gets its own placement |
| Allocation.PlaceOthers | app/layout/alocacao.py:149-160 | the loop computes the remaining areas' placement |
| Allocation.AllocatePoints | app/layout/alocacao.py:36-162 | the method computes the whole placement |
| Allocation.DockedStageKeys | app/layout/alocacao.py:70-72 | the outbound stage makes exactly a "Docas saída" entry when the layout has one |
| Allocation.PickingStageKeys | app/layout/alocacao.py:106-108 | the Picking stage adds exactly a "Picking" entry when the layout has one |
| Allocation.AllocationKeys | app/layout/alocacao.py:67-162 | the placement has an entry for "Docas saída" and "Picking" exactly when the layout has them, and for every other area exactly when it has operations listed |
| Allocation.LayoutDocksKnown | app/layout/alocacao.py:77-98 | for a generated layout and dock association every associated truck's dock has a row, so the dock lookup never fails |
| Forklifts.Repeat | app/parametros_avancados/empilhadeiras.py:24 | `[x] * k` has max(k, 0) copies of x |
| Forklifts.RepeatCount | app/parametros_avancados/empilhadeiras.py:24 | the list holds k copies of x and nothing else |
| Forklifts.FastCountBounds | app/parametros_avancados/empilhadeiras.py:20-21 | a proportion within [0, 100] gives between 0 and n fast forklifts |
| Forklifts.SpeedClasses | app/parametros_avancados/empilhadeiras.py:3-32 | the classification fails exactly for a proportion outside [0, 100]; otherwise it classifies n forklifts, `round(n*p/100)` of them fast and the rest slow |
| Forklifts.ClassCountsSum | app/parametros_avancados/empilhadeiras.py:47-54 | the three class sizes add up to n, at least one forklift works in one area and none in a negative count of three areas |
| Forklifts.ClassCountsOfThree | app/parametros_avancados/empilhadeiras.py:47-54 | three forklifts with proportions 0.34 and 0.34 give one forklift per class |
| Forklifts.WithoutMembers | app/parametros_avancados/empilhadeiras.py:64-70 | the filtered list holds exactly the available forklifts not drawn |
| Forklifts.WithoutDistinct | app/parametros_avancados/empilhadeiras.py:64-70 | filtering keeps the forklifts distinct |
| Forklifts.WithoutMultiset | app/parametros_avancados/empilhadeiras.py:64-70 | the drawn forklifts and the remaining ones together are the available ones |
| Forklifts.Pairs | app/parametros_avancados/empilhadeiras.py:62-74 | the entries pair each listed forklift with the class value |
| Forklifts.AssignFresh | app/parametros_avancados/empilhadeiras.py:62-74 | assigning fresh forklifts appends their entries |
| Forklifts.ThreeWaySplit | app/parametros_avancados/empilhadeiras.py:59-74 | the three groups are disjoint and together are all forklifts |
| Forklifts.AssignThree | app/parametros_avancados/empilhadeiras.py:59-74 | the classification is the one-area group, then the two-areas group, then the rest |
| Forklifts.AreaClassesParts | app/parametros_avancados/empilhadeiras.py:59-74 | a successful classification is three disjoint groups covering 1..n, of the computed sizes |
| Forklifts.AreaClassesFailure | app/parametros_avancados/empilhadeiras.py:61 | the classification fails exactly when more one-area forklifts are asked for than exist (`random.sample` larger than the population) |
| Forklifts.PairsValueCounts | app/parametros_avancados/empilhadeiras.py:59-74 | each class value counts its group and every value is 1, 2 or 3 |
| Forklifts.GroupsCover | app/parametros_avancados/empilhadeiras.py:59-74 | every forklift 1..n is classified exactly once |
| Forklifts.AreaClassesShape | app/parametros_avancados/empilhadeiras.py:34-76 | the classification fails exactly when the one-area count exceeds n; otherwise every forklift 1..n is classified once, with a value in 1..3, and each value occurs as often as its class size |
| Forklifts.ClassifyByAreas | app/parametros_avancados/empilhadeiras.py:34-76 | the method computes the area classification |
| Forklifts.AssignLoop | app/parametros_avancados/empilhadeiras.py:62-74 | the loop computes the assignment of a class value to a group |
| Eligibility.MachinesPerKind | app/parametros_avancados/elegibilidade.py:35-48 | the inbound and storage counts are their shares (at least 1), and the adjusting loops make the three counts add up to the number of machines |
| Eligibility.Add | app/parametros_avancados/elegibilidade.py:66-67 | adding a machine to one class appends it there and changes no other class |
| Eligibility.AddAllMembers | app/parametros_avancados/elegibilidade.py:66-67 | a machine is in a class afterwards exactly when it was before or the class was drawn for it |
| Eligibility.DrawnShape | app/parametros_avancados/elegibilidade.py:65 | a forklift draws as many distinct classes as its area count, all among the three |
| Eligibility.KindsDistinct | app/parametros_avancados/elegibilidade.py:35-39 | the three classes are distinct |
| Eligibility.JoinedAt | app/parametros_avancados/elegibilidade.py:63-67 | a listed forklift joins exactly the classes drawn for it |
| Eligibility.JoinedAbsent | app/parametros_avancados/elegibilidade.py:63-67 | a forklift that is not classified joins no class |
| Eligibility.RostersStep | app/parametros_avancados/elegibilidade.py:63-67 | each forklift's draw keeps the rosters in step with the classification seen |
| Eligibility.RostersShape | app/parametros_avancados/elegibilidade.py:63-67 | building the rosters fails exactly when some area count exceeds the three classes; otherwise each roster holds exactly the forklifts that drew it |
| Eligibility.ClassesOf | app/parametros_avancados/elegibilidade.py:63-67 | the classes a forklift belongs to are exactly those drawn for it |
| Eligibility.ClassesOfMachine | app/parametros_avancados/elegibilidade.py:63-67 | a forklift with area count q belongs to exactly q classes |
| Eligibility.AllocateRosters | app/parametros_avancados/elegibilidade.py:60-67 | the loop computes the rosters |
| Eligibility.FirstTruck | app/parametros_avancados/elegibilidade.py:78-81 | the truck found is the first listing the operation, and there is none exactly when no truck lists it |
| Eligibility.FindTruck | app/parametros_avancados/elegibilidade.py:78-81 | the search loop finds that first truck |
| Eligibility.Row | app/parametros_avancados/elegibilidade.py:52-76 | one occurrence per operation of an area, in order |
| Eligibility.Column | app/parametros_avancados/elegibilidade.py:84-85 | the 0/1 list marks exactly the machines of a class of an area that lists the operation |
| Eligibility.MarkedSnoc | app/parametros_avancados/elegibilidade.py:70-85 | a new occurrence marks the machines of its area's class for its operation |
| Eligibility.InitStep | app/parametros_avancados/elegibilidade.py:51-57 | each listed operation starts with no truck and all zeros |
| Eligibility.MarkStep | app/parametros_avancados/elegibilidade.py:76-85 | marking an occurrence keeps the cells in step with the occurrences seen |
| Eligibility.Active | app/parametros_avancados/elegibilidade.py:94 | the machines listed are exactly the 1-based positions holding a 1, increasing |
| Eligibility.InitCells | app/parametros_avancados/elegibilidade.py:51-57 | the loops give every listed operation a fresh cell |
| Eligibility.MarkOperation | app/parametros_avancados/elegibilidade.py:76-85 | one operation's truck search and marking keep the cells in step |
| Eligibility.MarkCells | app/parametros_avancados/elegibilidade.py:70-85 | the loops mark the cells for every occurrence |
| Eligibility.JoinedBounds | app/parametros_avancados/elegibilidade.py:64-67 | a roster holds only machine indices below num_maquinas |
| Eligibility.Eligibility | app/parametros_avancados/elegibilidade.py:4-102 | fails exactly when some forklift has more than three areas; otherwise the result has one entry per listed operation, in increasing order, with its first truck and exactly the machines (increasing, 1-based) of the class its area merges into |
| Eligibility.EligibleEntries | app/parametros_avancados/elegibilidade.py:88-100 | each entry of the sorted result holds the first truck and the active machines of its cell |
| ProcessingTime.SpeedOf | app/parametros_avancados/tempo_processamento.py:32-46 | a drawn speed lies within its class's range |
| ProcessingTime.TimingOf | app/parametros_avancados/tempo_processamento.py:28-96 | a zero speed fails with a zero division; otherwise the time is the rounded round trip `2d / (v/3.6)` and the distance is rounded |
| ProcessingTime.TabulateConcat | app/parametros_avancados/tempo_processamento.py:57-96 | filling the table from two runs of legs is filling it from the first run and then the second |
| ProcessingTime.PickingLegsSnoc | app/parametros_avancados/tempo_processamento.py:58-65 | an odd operation outside Picking whose operation is also placed in Picking adds the leg to that point |
| ProcessingTime.DockLegsSnoc | app/parametros_avancados/tempo_processamento.py:80-84 | an odd Picking operation op whose op+1 sits at an outbound dock adds the leg for op+1 |
| ProcessingTime.LastLeg | app/parametros_avancados/tempo_processamento.py:74-93 | the leg that decides an entry is the last one written for its key |
| ProcessingTime.StallsSnoc | app/parametros_avancados/tempo_processamento.py:71-90 | the table fails exactly when some leg's timing fails |
| ProcessingTime.TabulateStep | app/parametros_avancados/tempo_processamento.py:74-93 | writing one leg keeps the table equal to the last write per key |
| ProcessingTime.TabulateShape | app/parametros_avancados/tempo_processamento.py:57-96 | the table fails exactly when some leg has a zero speed; otherwise each key holds the timing of its last leg |
| ProcessingTime.TimedLeg | app/parametros_avancados/tempo_processamento.py:65-76 | a leg's timing is that of its Manhattan distance at the forklift's speed |
| ProcessingTime.TabulateAgrees | app/parametros_avancados/tempo_processamento.py:57-96 | legs timed the same way give the same table |
| ProcessingTime.SameClassSameTable | app/parametros_avancados/tempo_processamento.py:34-43 | in deterministic mode two forklifts of the same class get the same table |
| ProcessingTime.TableKeys | app/parametros_avancados/tempo_processamento.py:74-93 | the table has an entry exactly for keys with a leg |
| ProcessingTime.LastOutside | app/parametros_avancados/tempo_processamento.py:58-61 | the point that decides an odd operation's leg is its last placement outside Picking |
| ProcessingTime.LastLegConcat | app/parametros_avancados/tempo_processamento.py:57-96 | a key's last leg is in the dock run if it has one there, and otherwise in the Picking run |
| ProcessingTime.PickingLegsLast | app/parametros_avancados/tempo_processamento.py:58-77 | an odd operation's last Picking leg runs from its last placement outside Picking to its Picking point, when both exist |
| ProcessingTime.DockLegsLast | app/parametros_avancados/tempo_processamento.py:80-96 | an even operation's dock leg runs from the Picking point of the operation before it to its dock point, when both exist |
| ProcessingTime.LegsLast | app/parametros_avancados/tempo_processamento.py:53-96 | an odd key's entry comes from its leg to Picking, an even key's from its leg from Picking to its dock, and no other key has one |
| ProcessingTime.PickingLoop | app/parametros_avancados/tempo_processamento.py:58-77 | the loops over the areas compute the Picking legs' table |
| ProcessingTime.DockLoop | app/parametros_avancados/tempo_processamento.py:80-96 | the loop over Picking computes the dock legs' entries |
| ProcessingTime.SortByKey | app/parametros_avancados/tempo_processamento.py:98-100 | sorting keeps the entries and orders the keys increasingly |
| ProcessingTime.MachineTable | app/parametros_avancados/tempo_processamento.py:57-100 | one forklift's table fails exactly when a leg stalls, and otherwise holds the last timing per key in increasing key order |
| ProcessingTime.ProcessingTimes | app/parametros_avancados/tempo_processamento.py:4-102 | fails exactly when some forklift has a zero speed on a leg; otherwise there is one table per forklift, each the last timing per key at that forklift's speed, keys increasing |
| SetupTime.LastAreaSome | app/parametros_avancados/tempo_setup.py:33-37 | an operation has an area exactly when it is placed outside Picking |
| SetupTime.FileAllShape | app/parametros_avancados/tempo_setup.py:36-37 | filing operations under an area keeps keys distinct and overrides exactly those operations |
| SetupTime.AreaMapShape | app/parametros_avancados/tempo_setup.py:33-37 | each operation is filed under the last area outside Picking that places it |
| SetupTime.OperationAreas | app/parametros_avancados/tempo_setup.py:33-37 | the loops compute that map |
| SetupTime.SetupOpsShape | app/parametros_avancados/tempo_setup.py:40 | the sorted operations are exactly those placed outside Picking, increasing |
| SetupTime.SetupTimes | app/parametros_avancados/tempo_setup.py:53-80 | there is one table per forklift 1..n_maquinas, each the setup table for that forklift |
| SetupTime.SetupKeys | app/parametros_avancados/tempo_setup.py:45-57 | each table has distinct keys, one per pair of placed operations with the smaller first, n(n-1)/2 of them, in the order of the nested loops |
| SetupTime.SetupEntry | app/parametros_avancados/tempo_setup.py:59-76 | the pairs (1,2), (3,4), (5,6) and pairs filed under the same area cost 0; any other pair costs the rounded midpoint in deterministic mode and otherwise a rounded draw within [t_min, t_max] |
| SetupTime.SetupDeterministic | app/parametros_avancados/tempo_setup.py:72-73 | in deterministic mode every forklift gets the same table |
| BlockingTime.PlacedOpsMembership | app/parametros_avancados/tempo_blocking.py:28-31 | the collected operations are exactly those placed outside Picking |
| BlockingTime.CollectOps | app/parametros_avancados/tempo_blocking.py:28-31 | the loop collects them |
| BlockingTime.Dedup | app/parametros_avancados/tempo_blocking.py:34 | `set` keeps each operation once |
| BlockingTime.BlockingOpsShape | app/parametros_avancados/tempo_blocking.py:34 | the sorted operations are exactly those placed outside Picking, increasing, and the same as the setup operations |
| BlockingTime.BlockingTimes | app/parametros_avancados/tempo_blocking.py:44-59 | there is one table per forklift 1..n_maquinas |
| BlockingTime.BlockingKeys | app/parametros_avancados/tempo_blocking.py:36-48 | each table has the same keys as the setup table: one per pair of placed operations, smaller first |
| BlockingTime.BlockingEntry | app/parametros_avancados/tempo_blocking.py:50-55 | every pair costs the rounded midpoint in deterministic mode, and otherwise a rounded draw within [t_min, t_max] |
| BlockingTime.BlockingDeterministic | app/parametros_avancados/tempo_blocking.py:51-52 | in deterministic mode every forklift gets the same table |
| Pairs.RowPairs | app/parametros_avancados/tempo_setup.py:48-51 | the pairs of row i are ops[i] with each later operation, in order (the same code recurs at tempo_blocking.py lines 39-42) |
| Pairs.PairsUpToMembership | app/parametros_avancados/tempo_setup.py:47-51 | a pair is among the first i rows' pairs exactly when it takes an earlier position of the list first and a later one second, the first position below i (the same code recurs at tempo_blocking.py lines 38-42) |
| Pairs.PairsOfMembership | app/parametros_avancados/tempo_setup.py:46-51 | over sorted operations a pair is generated exactly when both are operations and the first is smaller (the same code recurs at tempo_blocking.py lines 37-42) |
| Pairs.PairsUpToCount | app/parametros_avancados/tempo_setup.py:47-51 | the first i rows hold i(2n - i - 1)/2 pairs (the same code recurs at tempo_blocking.py lines 38-42) |
| Pairs.PairsOfCount | app/parametros_avancados/tempo_setup.py:46-51 | n operations give n(n - 1)/2 pairs (the same code recurs at tempo_blocking.py lines 37-42) |
| Pairs.PairsUpToDistinct | app/parametros_avancados/tempo_setup.py:47-51 | distinct operations give distinct pairs in the first i rows (the same code recurs at tempo_blocking.py lines 38-42) |
| Pairs.PairsOfDistinct | app/parametros_avancados/tempo_setup.py:46-51 | distinct operations give distinct pairs (the same code recurs at tempo_blocking.py lines 37-42) |
| Pairs.Combinations | app/parametros_avancados/tempo_setup.py:46-51 | the nested loops build exactly the pairs of the specification, in their order (the same code recurs at tempo_blocking.py lines 37-42) |
| Pairs.TabledShape | app/parametros_avancados/tempo_setup.py:55-57 | filling a dictionary over the pairs gives distinct keys, the value of each listed pair and nothing for any other, with keys in pair order when the pairs are distinct (the same code recurs at tempo_blocking.py lines 46-48) |
| Pairs.TabledAgrees | app/parametros_avancados/tempo_setup.py:55-57 | two value rules that agree on the pairs fill the same table (the same code recurs at tempo_blocking.py lines 46-48) |
| Pairs.FillTable | app/parametros_avancados/tempo_setup.py:55-57 | the loop over the pairs fills the specification's table (the same code recurs at tempo_blocking.py lines 46-48) |
| DueDates.Alpha | app/parametros_avancados/datas_entrega.py:23-32 | a truck's factor lies in [0.1, 0.9] when all are early, else in [1.1, 2] when all are late, and otherwise in [0.1, 2] |
| DueDates.MachineTotalConcat | app/parametros_avancados/datas_entrega.py:42-45 | a forklift's total over two runs of operations is the sum of the two totals |
| DueDates.MachineTotalAbsent | app/parametros_avancados/datas_entrega.py:44 | operations without a time on the forklift add nothing |
| DueDates.Totals | app/parametros_avancados/datas_entrega.py:41-45 | there is one total per forklift, each its sum over the truck's operations |
| DueDates.Positives | app/parametros_avancados/datas_entrega.py:47-48 | only the positive totals are kept |
| DueDates.SumBetween | app/parametros_avancados/datas_entrega.py:53 | a sum of values within [lo, hi] lies within [n*lo, n*hi] |
| DueDates.SummaryBounds | app/parametros_avancados/datas_entrega.py:47-61 | for positive totals, 0 < minimum <= mean <= maximum |
| DueDates.MeanBetween | app/parametros_avancados/datas_entrega.py:53 | the mean of totals within [lo, hi] lies within [lo, hi] |
| DueDates.Spread | app/parametros_avancados/datas_entrega.py:69-74 | the base of the date lies between the minimum and the maximum |
| DueDates.ScaledMonotone | app/parametros_avancados/datas_entrega.py:71-78 | scaling by a non-negative factor and rounding is monotone |
| DueDates.DateBounds | app/parametros_avancados/datas_entrega.py:69-78 | the date lies between the scaled minimum and the scaled maximum; in deterministic mode it is the scaled mean |
| DueDates.UnservedNone | app/parametros_avancados/datas_entrega.py:52-55 | a truck has no summary exactly when no forklift has a positive total for it |
| DueDates.SummaryRuleBounds | app/parametros_avancados/datas_entrega.py:47-61 | every summary has 0 < minimum <= mean <= maximum |
| DueDates.SummariesShape | app/parametros_avancados/datas_entrega.py:36-61 | summarising fails exactly when some truck has no summary, with the error naming the first such truck; otherwise there is one summary per truck |
| DueDates.DueDatesShape | app/parametros_avancados/datas_entrega.py:36-80 | the dates fail exactly when some truck has no summary, naming the first; otherwise truck t's date is the date rule applied to its summary |
| DueDates.DueDatesMeaning | app/parametros_avancados/datas_entrega.py:3-80 | fails exactly when some truck has no positive total on any forklift (`ValueError` for the first); otherwise every truck's date lies between its scaled minimum and maximum with a factor in the mode's range, and is the scaled mean in deterministic mode |
| DueDates.MachineTotalLoop | app/parametros_avancados/datas_entrega.py:42-45 | the loop sums the truck's times on one forklift |
| DueDates.PositivesSnoc | app/parametros_avancados/datas_entrega.py:47-48 | each forklift's positive total is appended |
| DueDates.TruckTotals | app/parametros_avancados/datas_entrega.py:37-50 | the loop keeps the positive totals and their minimum (none when empty) and maximum (0 when empty) |
| DueDates.TruckSummaryLoop | app/parametros_avancados/datas_entrega.py:37-61 | the loop computes the truck's summary |
| DueDates.SummariesSnoc | app/parametros_avancados/datas_entrega.py:36-61 | each truck's summary is appended, and a truck without one stops the loop with its number |
| DueDates.SummariesFailure | app/parametros_avancados/datas_entrega.py:55 | a failure ends the loop |
| DueDates.SummaryLoop | app/parametros_avancados/datas_entrega.py:35-61 | the loop computes all trucks' summaries |
| DueDates.DueDatesOfSuccess | app/parametros_avancados/datas_entrega.py:64-78 | truck u+1's date is the date rule applied to its summary |
| DueDates.Factors | app/parametros_avancados/datas_entrega.py:23-32 | the loop draws one factor per truck in the mode's range |
| DueDates.Dates | app/parametros_avancados/datas_entrega.py:64-78 | the loop computes one date per truck from its summary and factor |
| DueDates.DueDates | app/parametros_avancados/datas_entrega.py:3-80 | the method computes the due dates |
| AmplWriter.WriteText | app/prints/print_parametros.py:2-3 | each write adds its content followed by a newline to the file's text |
| AmplWriter.FileTextConcat | app/prints/print_parametros.py:2-3 | the text of two runs of writes is the text of the first followed by the text of the second |
| AmplWriter.EmitShape | app/prints/print_parametros.py:21-23 | a loop of lines raises exactly when one of its lines raises, and then with that line's exception |
| AmplWriter.EmitStops | app/prints/print_parametros.py:21-23 | once a loop has raised, later lines write nothing more |
| AmplWriter.EmitStep | app/prints/print_parametros.py:21-23 | a line that does not raise is appended to a loop that has not raised |
| AmplWriter.EmitFailsAt | app/prints/print_parametros.py:21-23 | the first line that raises decides the exception of the whole loop |
| AmplWriter.EmitConcat | app/prints/print_parametros.py:49-55 | a loop that has not raised is continued by the next loop |
| AmplWriter.EmitPartStops | app/prints/print_parametros.py:49-55 | a raising part of a nested loop decides the whole nested loop |
| AmplWriter.EmitAll | app/prints/print_parametros.py:21-23 | when no line raises, every line is written, in order |
| AmplWriter.EmitFirstFailure | app/prints/print_parametros.py:21-23 | a loop that stops at its first raising line k has written exactly the k lines before it |
| AmplWriter.EmitRowStep | app/prints/print_parametros.py:49-55 | the first a + 1 rows of a nested loop continue the first a rows with row a |
| AmplWriter.SectionAll | app/prints/print_parametros.py:19-24 | a section whose lines all succeed writes its comment and parameter lines, its lines and the closing ';' |
| AmplWriter.SectionStops | app/prints/print_parametros.py:19-24 | a section whose line k first raises stops there with that exception, after its header and the k lines before it; the ';' is never written |
| AmplWriter.GridWritten | app/prints/print_parametros.py:49-56 | a section of rows of n lines that do not raise puts line j of row a at a fixed slot after the header, followed by ';' |
| AmplWriter.IntWords | app/prints/print_parametros.py:198 | one word per integer of the row (what each word reads back as: ReadBack) |
| AmplWriter.ReadBack | app/prints/print_parametros.py:198 | each word of such a line parses back as the integer written |
| AmplWriter.TruckNumberOfKey | app/prints/print_parametros.py:22 | the number read from the key of truck n ("Caminhão n") is n |
| AmplWriter.KeyedDates | app/prints/print_parametros.py:21-23 | one "Caminhão t" key per truck 1..n (what each reads back as: TruckNumberOfKey) |
| AmplWriter.DateLineOfTruck | app/prints/print_parametros.py:22-23 | the line of truck t reads back as t and its due date (already an integer, so `round` leaves it unchanged) |
| AmplWriter.DateRows | app/prints/print_parametros.py:21-23 | one line per truck 1..n (their content: DateLineOfTruck) |
| AmplWriter.DatesWritten | app/prints/print_parametros.py:19-24 | with the pipeline's keys nothing raises and the section is the header, one line per truck in order, and ';' |
| AmplWriter.DatesRead | app/prints/print_parametros.py:19-24 | line t + 2 of the section reads back as truck t + 1 and its due date |
| AmplWriter.DatesStopAtBadKey | app/prints/print_parametros.py:22 | a key without a second word, or with a non-integer one, stops the section at that truck, with the exception the parse raised |
| AmplWriter.ByOperationEntries | app/prints/print_parametros.py:49 | every entry of the sorted run is an entry of the eligibility map |
| AmplWriter.ByOperationIncreasing | app/prints/print_parametros.py:49 | over distinct keys the sorted run's operations are strictly increasing |
| AmplWriter.ByOperationKeys | app/prints/print_parametros.py:49 | an operation is in the sorted run exactly when it is a key of the map |
| AmplWriter.ByOperationShape | app/prints/print_parametros.py:49 | the sorted run lists every operation once, in strictly increasing order, with its own entry |
| AmplWriter.ProcessingCellShape | app/prints/print_parametros.py:50-55 | a processing line reads back as operation, machine, and '.' exactly when the machine is not eligible, else the machine's rounded time |
| AmplWriter.ProcessingSlots | app/prints/print_parametros.py:49-55 | every cell of the section is at the slot of its operation and machine in the flattened rows |
| AmplWriter.ProcessingCellsSucceed | app/prints/print_parametros.py:51-52 | no line raises exactly when every eligible machine has a time for its operation |
| AmplWriter.ProcessingCellsRaise | app/prints/print_parametros.py:52 | a line raises only because of a missing time |
| AmplWriter.ProcessingRaises | app/prints/print_parametros.py:47-56 | the section raises exactly when some eligible machine lacks a time, and then with the KeyError of the missing key |
| AmplWriter.ProcessingWritten | app/prints/print_parametros.py:47-56 | without missing times the section holds one line per operation, in increasing order, and machine, at its own slot, then ';' |
| AmplWriter.EligibilityLineReads | app/prints/print_parametros.py:84-87 | an eligibility line reads back as operation, truck, machine and a flag that is 1 exactly when the truck is the operation's and the machine one of its machines |
| AmplWriter.EligibilityRow | app/prints/print_parametros.py:83-87 | one line per machine for a truck of an operation (their content: EligibilityLineReads) |
| AmplWriter.EligibilityLines | app/prints/print_parametros.py:82-87 | one run of machine lines per truck of an operation |
| AmplWriter.EligibilityBlockShape | app/prints/print_parametros.py:81-91 | a block has trucks * machines lines, truck c + 1 and machine m + 1 at a fixed slot, then its separator |
| AmplWriter.EligibilityBlocksUniform | app/prints/print_parametros.py:81-91 | every operation's block has the same length |
| AmplWriter.EligibilitySectionLength | app/prints/print_parametros.py:79-91 | the section is its header then one block per operation in increasing order; with no operations no ';' is written |
| AmplWriter.EligibilitySectionLines | app/prints/print_parametros.py:79-91 | the line for operation number a, truck c + 1 and machine m + 1 sits at a fixed slot and reads back as its flag |
| AmplWriter.EligibilitySeparators | app/prints/print_parametros.py:88-91 | the block of the last operation ends with ';' and every other block with a blank line |
| AmplWriter.PredecessorsRead | app/prints/print_parametros.py:107-112 | each entry of the predecessor map gets one line, in order, that reads back as the operation and its predecessor |
| AmplWriter.OperationsRead | app/prints/print_parametros.py:299-302 | exactly max(tasks, 0) lines, the one of task t reading back as t and the operations per task |
| AmplWriter.RowTriples | app/prints/print_parametros.py:193-198 | one triple i j value per column j of row i |
| AmplWriter.PairValueSymmetric | app/prints/print_parametros.py:207-209 | a table keyed by pairs i < j prints a symmetric matrix: both orders show the increasing pair's value, or 0 |
| AmplWriter.PairMatricesSymmetric | app/prints/print_parametros.py:207-209 | setup and blocking tables hold only increasing pairs, so both printed matrices are symmetric and show each pair's own time |
| AmplWriter.RowWordsTokens | app/prints/print_parametros.py:198 | every word of a row line survives a split |
| AmplWriter.PairCellReads | app/prints/print_parametros.py:196-218 | a cell is '.' exactly on the diagonal and the stored value elsewhere; a machine without a table shows 0 |
| AmplWriter.RowWordsShape | app/prints/print_parametros.py:195-198 | a row line holds 3n words reading back as i, j + 1, and '.' on the diagonal or the pair's value |
| AmplWriter.RowLines | app/prints/print_parametros.py:193-198 | one row line per operation of a machine's matrix |
| AmplWriter.MachineBlock | app/prints/print_parametros.py:190-220 | a machine's block is its header then one row line per operation |
| AmplWriter.PairSectionLength | app/prints/print_parametros.py:187-222 | the section has one block of n + 1 lines per machine between its two header lines and ';' |
| AmplWriter.PairSectionBlocks | app/prints/print_parametros.py:189-220 | line i of the block of machine m + 1 sits at a fixed slot of the section |
| AmplWriter.PairSectionHeaders | app/prints/print_parametros.py:191-200 | each machine's block starts with "[*,*,m]", preceded by a blank line exactly when the table has that machine |
| AmplWriter.PairSectionRows | app/prints/print_parametros.py:193-198 | the line of row i of machine m + 1 comes i lines after that machine's header |
| AmplWriter.RowLine | app/prints/print_parametros.py:194-198 | the loop that extends a row with i, j and the cell for j = 1..n builds exactly the row's words (their shape: RowWordsShape) |
| AmplWriter.AmplFile.constructor | app/prints/print_parametros.py:2 | a new file has nothing written |
| AmplWriter.AmplFile.Write | app/prints/print_parametros.py:2-3 | appends one write to the file |
| AmplWriter.AmplFile.WriteDateLines | app/prints/print_parametros.py:21-23 | writes the truck lines until a key does not parse, and reports that exception |
| AmplWriter.AmplFile.PrintDueDates | app/prints/print_parametros.py:5-24 | writes the due-date section and reports the exception it raises, if any |
| AmplWriter.AmplFile.WriteProcessingRow | app/prints/print_parametros.py:50-55 | writes one operation's machine lines until an eligible machine has no time |
| AmplWriter.AmplFile.WriteProcessingRows | app/prints/print_parametros.py:49-55 | writes the operations in increasing order until an eligible machine has no time |
| AmplWriter.AmplFile.PrintProcessingTimes | app/prints/print_parametros.py:26-56 | writes the processing-time section, stopping at the first missing time |
| AmplWriter.AmplFile.WriteEligibilityBlock | app/prints/print_parametros.py:82-91 | writes one operation's lines and its separator |
| AmplWriter.AmplFile.WriteEligibilityRow | app/prints/print_parametros.py:83-87 | writes one truck's lines of one operation |
| AmplWriter.AmplFile.PrintEligibility | app/prints/print_parametros.py:58-91 | writes the eligibility section |
| AmplWriter.AmplFile.PrintPredecessors | app/prints/print_parametros.py:93-112 | writes the predecessor section |
| AmplWriter.AmplFile.PrintMachines | app/prints/print_parametros.py:114-129 | writes the comment and the machine-count parameter |
| AmplWriter.AmplFile.PrintTrucks | app/prints/print_parametros.py:131-146 | writes the comment and the truck-count parameter |
| AmplWriter.AmplFile.PrintJobs | app/prints/print_parametros.py:148-164 | writes the comment and the job-count parameter |
| AmplWriter.AmplFile.PrintOperations | app/prints/print_parametros.py:283-302 | writes one line per task with its number of operations |
| AmplWriter.AmplFile.PrintPairs | app/prints/print_parametros.py:187-222 | writes a pair-time section, one block per machine |
| AmplWriter.AmplFile.PrintMachineBlock | app/prints/print_parametros.py:190-220 | writes one machine's block |
| AmplWriter.AmplFile.PrintSetupTimes | app/prints/print_parametros.py:166-222 | writes the setup-time section |
| AmplWriter.AmplFile.PrintBlockingTimes | app/prints/print_parametros.py:224-281 | writes the blocking-time section |
| LogParser.ParseMac | app/resultados/leitura_result.py:5-9 | the loop returns the value of the first `MAC =` line, None without one, and the parse error of a value that is not an integer |
| LogParser.MacAbsent | app/resultados/leitura_result.py:5-9 | no makespan is read exactly when no line starts with `MAC =` |
| LogParser.MacFirst | app/resultados/leitura_result.py:6-8 | the first `MAC =` line decides the result, its value or its parse error; later ones are ignored |
| LogParser.MacLine | app/resultados/leitura_result.py:7-8 | the line "MAC = v" reads back as v |
| LogParser.NumberBetween | app/resultados/leitura_result.py:39 | in a header whose text before the number has no digits, the first run of digits found is the number |
| LogParser.PatternRoundTrip | app/resultados/leitura_result.py:27-92 | the header text of block n matches its own variant's pattern only, and its number reads back as n |
| LogParser.Prefixed | app/resultados/leitura_result.py:27-92 | "alpha " before a pattern is a header of the same variants, with the same number |
| LogParser.HeaderRoundTrip | app/resultados/leitura_result.py:27-104 | the header of block n, with or without "alpha ", is recognised for its own variant only and carries n |
| LogParser.Unprefixed | app/resultados/leitura_result.py:27-92 | a line starting with "[" is a header exactly when it starts with the block pattern |
| LogParser.AlphaAdvance | app/resultados/leitura_result.py:23-66 | reading one line stores the block it completes, if any, before the rest of the log is read; a block that is not a matrix stops the parse |
| LogParser.AlphaEnd | app/resultados/leitura_result.py:68-137 | at the end of the log a block with rows is stored, zipped with its held-over columns |
| LogParser.ParseAlpha | app/resultados/leitura_result.py:11-139 | the while loop of either block parser computes the specification's dictionary, or its error |
| LogParser.ParseAlphaTrucks | app/resultados/leitura_result.py:11-74 | `parse_alpha_caminhao` computes the truck-keyed dictionary of the specification |
| LogParser.ParseAlphaForklifts | app/resultados/leitura_result.py:76-139 | `parse_alpha_empilhadeira` computes the forklift-keyed dictionary of the specification |
| LogParser.CollectRow | app/resultados/leitura_result.py:55-63 | inside a block a line is kept exactly when all its words are digits and there are at least two; it joins the block while the block has fewer rows than the row has values, and is held over otherwise |
| LogParser.BlockBoundary | app/resultados/leitura_result.py:27-54 | a line completes a block exactly when it is a header met while a non-empty block is collected, or a ';' inside a block; the completed block is the current number with its zipped rows; a header starts a block of its own number and skips two lines |
| LogParser.ZipConcatRows | app/resultados/leitura_result.py:32-71 | zipping held-over rows into the block gives as many rows as the shorter has, each the block row followed by its held-over values |
| LogParser.TransposeTwice | app/resultados/leitura_result.py:100-137 | transposing a non-empty matrix twice gives it back |
| LogParser.TransposePut | app/resultados/leitura_result.py:100 | storing a transposed block is transposing the stored dictionary |
| LogParser.ForkliftStoresTranspose | app/resultados/leitura_result.py:76-139 | the forklift way stores, under the same keys in the same order, the transposes of what the truck way stores, and fails on the same blocks |
| LogParser.StoreRectangular | app/resultados/leitura_result.py:35-137 | storing blocks of either variant, each `np.array(rows)` or its transpose, into rectangular matrices leaves every stored matrix rectangular |
| LogParser.AlphaAllRectangular | app/resultados/leitura_result.py:11-139 | every matrix a block parser of either variant returns is rectangular |
| LogParser.StepNumber | app/resultados/leitura_result.py:39-105 | a block collected carries the number of the header that opened it |
| LogParser.BlockNumbers | app/resultados/leitura_result.py:23-72 | every block stored carries the number of some header line of its variant |
| LogParser.StoredKeys | app/resultados/leitura_result.py:35-72 | the stored keys are the initial ones and the numbers of the blocks |
| LogParser.AlphaKeys | app/resultados/leitura_result.py:11-139 | every key of a parsed dictionary is the number on some header line |
| LogParser.ScanPreserves | app/resultados/leitura_result.py:146-218 | a property every table row keeps holds of the table read |
| LogParser.ScanWithoutHeader | app/resultados/leitura_result.py:146-218 | a log without the table's header reads as the empty table |
| LogParser.ScanOpen | app/resultados/leitura_result.py:146-207 | outside a table a line only decides whether the table starts |
| LogParser.ScanClose | app/resultados/leitura_result.py:152-211 | a terminator or blank line, or the end of the log, closes the table |
| LogParser.ScanRow | app/resultados/leitura_result.py:154-162 | a data row of the table updates it, or stops the parse with its error |
| LogParser.ReadTimesRow | app/resultados/leitura_result.py:154-161 | the handling of one `t`/`A` line is the specification's |
| LogParser.ParseTimes | app/resultados/leitura_result.py:141-164 | `parse_t_and_A` computes the specification's two maps, or the error of a token `int`/`float` rejects |
| LogParser.TimesRowEffect | app/resultados/leitura_result.py:155-161 | a line of at least three words sets t of its operation, sets A unless the third word is '.', and leaves every other operation alone; shorter lines change nothing |
| LogParser.TimesRowKeeps | app/resultados/leitura_result.py:159-161 | a line keeps every operation with an arrival time also timed |
| LogParser.TimesArrivalsTimed | app/resultados/leitura_result.py:141-164 | every operation with an arrival time A has a completion time t |
| LogParser.ColumnsFailure | app/resultados/leitura_result.py:192-194 | a column that is not a number ends the row with its error |
| LogParser.ReadColumns | app/resultados/leitura_result.py:192-194 | the loop over the columns appends the specification's triples |
| LogParser.ReadProcessingRow | app/resultados/leitura_result.py:178-195 | the handling of one `p` line is the specification's |
| LogParser.ProcessingResume | app/resultados/leitura_result.py:176-197 | the terminator left for the outer loop is skipped there, as the table closing on it would |
| LogParser.ReadProcessingSection | app/resultados/leitura_result.py:173-195 | the inner loop reads the table up to its terminator or the end of the log, in agreement with the specification |
| LogParser.ParseProcessing | app/resultados/leitura_result.py:166-198 | `parse_processing_time` computes the specification's triples, or the error of a column `float` rejects |
| LogParser.ColumnsSucceed | app/resultados/leitura_result.py:192-194 | reading a row fails exactly when one of its columns from 1 on is neither '.' nor a number |
| LogParser.ColumnsExact | app/resultados/leitura_result.py:192-194 | a row adds exactly the triples (op, j, value) of its columns j that are not '.', after what was read before |
| LogParser.ProcessingColumns | app/resultados/leitura_result.py:192 | every triple read has a machine column of at least 1 |
| LogParser.ReadDatesRow | app/resultados/leitura_result.py:212-216 | the handling of one `d` line is the specification's |
| LogParser.ParseDates | app/resultados/leitura_result.py:200-219 | `parse_d` computes the specification's map, or the error of a token `int`/`float` rejects |
| LogParser.DatesLine | app/resultados/leitura_result.py:213-216 | the line "truck date" sets that truck's date and no other's |
| Metrics.ProcessingMapLookup | app/resultados/metricas.py:18 | the time looked up for (operation, machine) is that of the last triple with that pair, or none |
| Metrics.CellContribution | app/resultados/metricas.py:27-66 | a cell gives an operation exactly when it is 1 and both the start time and the processing time exist; then operation = row + 1, the key and column + 1 are forklift and truck by orientation, and completion = start + processing |
| Metrics.RowMembers | app/resultados/metricas.py:29-44 | the operations of one matrix row are exactly the contributions of its cells |
| Metrics.MatrixMembers | app/resultados/metricas.py:27-44 | the operations of one matrix are exactly the contributions of its cells |
| Metrics.InfosMembers | app/resultados/metricas.py:23-66 | the operations collected are exactly the contributions of the cells of every matrix |
| Metrics.InfosFail | app/resultados/metricas.py:26-48 | collecting fails exactly when some matrix has no rows, whose shape cannot be unpacked into two sizes |
| Metrics.InfosFailure | app/resultados/metricas.py:25-48 | once a matrix has failed, later matrices do not change the outcome |
| Metrics.CollectRow | app/resultados/metricas.py:29-44 | the loop over one row's cells collects that row's operations |
| Metrics.CollectMatrix | app/resultados/metricas.py:26-44 | the loops over one matrix collect that matrix's operations |
| Metrics.CollectOperations | app/resultados/metricas.py:20-66 | the loops over alpha collect the specification's operations, with alpha's keys taken as forklifts when there are no more machines than trucks and as trucks otherwise |
| Metrics.MaxReal | app/resultados/metricas.py:69-80 | the maximum is one of the values and no value exceeds it |
| Metrics.Completions | app/resultados/metricas.py:69 | one completion time per operation |
| Metrics.MakespanIsLatest | app/resultados/metricas.py:69 | without operations `max` raises; otherwise the makespan is the completion time of some operation and no operation completes later |
| Metrics.Grouped | app/resultados/metricas.py:72-76 | every truck in the grouping has at least one completion time |
| Metrics.GroupByTruck | app/resultados/metricas.py:72-76 | the setdefault loop builds the specification's grouping |
| Metrics.GroupedLookup | app/resultados/metricas.py:72-76 | a truck's entry is the completion times of its operations in order, and a truck without operations has none |
| Metrics.GroupedDistinct | app/resultados/metricas.py:72-76 | each truck appears once in the grouping |
| Metrics.TruckDelay | app/resultados/metricas.py:80-82 | the delay is never negative, is at least the last completion minus the due date, and is one of the two |
| Metrics.ComputeDelays | app/resultados/metricas.py:78-83 | the loop computes the specification's delay of each truck |
| Metrics.DelaysInOrder | app/resultados/metricas.py:78-83 | the delays come in the grouping's order, each truck's from its own completion times and its due date (0 when missing) |
| Metrics.CountPositive | app/resultados/metricas.py:86 | the count is at most the number of trucks, and is 0 exactly when no delay is positive |
| Metrics.SumAtLeastEach | app/resultados/metricas.py:92 | over non-negative delays the sum is at least each delay |
| Metrics.MaxAtMostSum | app/resultados/metricas.py:89-92 | over non-negative delays the maximum (0 without trucks) lies between 0 and the sum |
| Metrics.CalculateMetrics | app/resultados/metricas.py:1-99 | `calculate_metrics` computes the specification's report, or the error `max` or the shape unpacking raise |
| Metrics.ReportDelays | app/resultados/metricas.py:72-83 | there is one delay per grouped truck, each that truck's delay over its own operations |
| Metrics.ReportBounds | app/resultados/metricas.py:69-92 | no operation completes after the makespan; the number of delayed trucks is at most the number of trucks; 0 <= max_delay <= sum_delays; max_delay > 0 exactly when some truck is delayed |

## Left out

- Plotting: `gantt.py`, `heatmap.py`, `func_aux.py`, `plotar_caminhos`, the drawing half of `plotar_layout_com_pontos` and the `plt.Rectangle` calls of the layout function draw with matplotlib and have no effect on the data; only the label map is modelled.
- File handling: `parse_lines` and `parse_log_file` open a file, `pipeline_print.py` opens the output file and names it; the log is given as its list of lines and the AMPL file as the list of strings written to it. `parse_log_file`'s composition of the six parsers (forklift blocks read only when no truck block is found) is not part of this model; each parser is.
- Glue: `main.py`, `pipeline_layout.py`, `pipeline_av.py` and `pipeline_results.py` only pass data between the modelled functions and print or catch exceptions.
- Randomness: every `random.randint`, `choice`, `sample`, `shuffle` and `uniform` call reads an explicit draw stream or factor supplied by the caller; each draw is constrained to a valid index, a permutation or a value in its range, and probabilities are not modelled.
- AmplWriter.PairValue: pair times are integers in the model, so the printer's handling of a time given as a string (converted to a float, or 0 when that conversion raises) and its final rounding to an integer are not modelled (print_parametros.py lines 211-218 and the same block of the blocking printer); the pipeline only hands the printer integers already rounded by the setup and blocking generators.
- Floating point: floats are exact reals, so the km/h to m/s division, `int(prop * n)`, `round` of the time generators (modelled exactly, ties to even), the `w/2` centre and the `uniform` factors carry no IEEE rounding error.
- Number parsing: `float(token)` of the log parser accepts fixed-point decimals only (no exponent, `inf` or `nan`), `int(token)` accepts an optional sign and ASCII digits only (no underscores), and `str.isdigit` recognises ASCII digits only.
- Regular expressions: the block headers `[*,N,*]` and `[*,*,N]`, with or without `alpha ` in front, are recognised by a hand-written prefix check, and the block number is the first run of digits of the line; a header always holds a digit, so the `None` of a failed `re.search` cannot arise.
- numpy: `np.arange` is modelled for integer bounds and a non-zero step; arrays are sequences of rows, `.T` is a transpose, `np.array` of rows of different lengths is the failure `RaggedRows` rather than an object array, and unpacking the shape of an empty block is the failure `NotAMatrix`.
- Metrics.CalculateMetrics: requires every matrix of `alpha` to be rectangular, which numpy arrays always are and which both block parsers guarantee (LogParser.AlphaAllRectangular).
- Counts: the numbers of areas, tasks, docks, trucks and forklifts are natural numbers; negative counts, which make the source's `range` calls empty, are not modelled.
- Keys: "Caminhão t", "caminhão t" and "Empilhadeira m" are positions t - 1 and m - 1 of sequences; the lower-case association lookup of a truck becomes a bound on that position, and setup keys "a,b" are the pair (a, b).
- Labels: the source's fall-through label branch for an unknown area name is unreachable, because the model's areas are exactly the four kinds the generator creates.
- In-place updates: `random.shuffle` of the caller's task list and of the forklift labels returns the shuffled sequence; the caller never reads the list again, so the aliasing is not kept.
- Metrics: the two branches of `calculate_metrics`, identical but for which of key and column is the forklift, are one definition with a flag chosen as the source chooses it (`n_machines <= n_caminhoes`).
- The grid spacing is a positive integer; `np.arange` with a zero step raises, which is not modelled.
