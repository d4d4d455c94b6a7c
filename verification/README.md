# UAV strike routing: a verified model of the MILP formulation

The repository formulates the classify → attack → verify strike problem as a
mixed-integer linear program. There are `n` targets (nodes 1..n) and `w`
vehicles. Vehicle `v` starts from its own base, node `n+v`. Every target must
be classified, attacked and verified, in that order and a `delay` apart. Each
vehicle flies at most its endurance `T` and may end its route by flying to
one shared sink, node `n+w+1`. The program creates sparse binary routing variables
`x1[i, j, v, k]`, return variables `x2[i, sink, v]`, completion times
`t1[j, k]`, launch times `t2[v]` and a makespan `t`, and then adds the
constraint families and one objective.

This project models that formulation without a solver:

- **The index domain** is in `nodes.dfy`: node ranges, tasks, and the tuple
  keys `Leg`, `SinkLeg` and `Slot`.
- **The key universe** is in `universe.dfy`. The variable dictionaries are
  generated in the program's loop order and compared with a reference
  definition of each key set and with its size. `X1Domain`, `X2Domain` and
  `T1Domain` hold the same keys once each, in no particular order.
- **Each constraint family** is a predicate over a candidate solution in
  `formulation.dfy`. Every `quicksum(... if key in x1)` is a sum over the
  keys of the order-free domain that satisfy a guard. `Feasible` is the conjunction of the
  families.
  - The three formulation files become one model with a `Variant` record:
    `ClassModel` for `UAVModelClass.py`, `ScriptModel` for the module-level
    `UAVModel.py` and `TobiasModel` for `UAVModel_Tobias.py`.
  - The variant records which families a file generates, the shape of its
    "leaves node j at most once" row, whether it times self-loop attacks, and
    the big-M multiplier of its launch rows (`w·T` or `T`).
  - Each variant's leave row is the one its file generates. `Repaired(cfg)`
    swaps it for the out-degree row: legs out of j plus the return from j,
    at most 1.
- **What a feasible solution guarantees** is in `properties.dfy`: one
  performer per task, single visits and returns, one munition, route
  continuity, base egress, and timing that is pinned exactly where both
  big-M indicators are 1. A target's classify and verify need two different
  vehicles, so one vehicle can serve no target.
- **The objective modes** and bounds on their values are in `objective.dfy`.
- **Where durations come from** is in `timedata.dfy`. There are two sources:
  - the class's random generator, with the random draw as a parameter;
  - the location helper, with the distance function and the speed as
    parameters.
- **The model construction** is in `build.dfy`. It creates the dictionaries
  and reads the durations. It fails exactly when a duration that some row
  reads is missing, where the program raises `KeyError`.
- **The "vehicle v leaves node j at most once" family** is in
  `findings.dfy`. That wording is the script's comment (`UAVModel.py:173`).
  None of the three rows the files generate bounds what leaves j. Each one
  is set against the out-degree row.

Notes on the code:

- The class's default objective is the makespan (`obj=2`), not the weighted
  completion time.
- An objective code other than 1, 2 or 3 sets no objective at all.
- The flight-time objective charges self-loop durations, but the endurance
  rows leave them out.
- The helper also creates durations for legs into bases, which no
  formulation reads.

The constraint families map to the source as follows:

| family | `Formulation` predicate | `UAVModelClass.py` | `UAVModel.py` | `UAVModel_Tobias.py` |
|---|---|---|---|---|
| each task once | `Completeness` | 87-97 | 141-148 | 75-80 |
| at most one performer | `Uniqueness` | 100-108 | 152-160 | 82-87 |
| single visit | `SingleVisit` | 111-115 | 164-167 | 89-91 |
| single return | `SinkOnce` | 116-119 | 169-171 | 92-93 |
| leave at most once | `LeaveOnce` | 121-123 | 175-178 | 95-97 |
| one munition | `Munition` | 125-128 | 181-184 | — |
| attack excludes verify | `AttackVerifyExclusive` | 130-135 | 187-191 | — |
| continuity | `Continuity` | 138-162 | 196-212 | — |
| base egress | `BaseEgress` | 164-168 | 215-218 | 99-100 |
| self-attack after classify | `SelfAttackNeedsClassify` | 170-173 | 221-225 | 102-104 |
| target timing | `TargetTiming` | 176-218 | 228-255 | 106-123 |
| self-loop timing | `SelfLoopTiming` | — | — | 116-123 |
| launch timing | `LaunchTiming` | 221-227 | 258-262 | 125-129 |
| task order | `TaskOrder` | 230-232 | 264-266 | 131-133 |
| endurance | `EnduranceLimit` | 235-238 | 268-269 | 135-136 |
| makespan | `Makespan` | 241-243 | — | — |

## Model

| member | source | states |
|---|---|---|
| Nodes.Partition | UAVModelClass.py:14-17 | Node ids 1..n+w+1 split into targets, bases and the sink without overlap, and each base belongs to exactly one vehicle, which launches from it. |
| Universe.X1Keys | UAVModelClass.py:44-55 | The generated `x1` keys are exactly the legal legs, each once. A self-loop exists only for the attack; a target-to-target leg exists for every vehicle and task; a base launches only its own vehicle. |
| Universe.X1Count | UAVModelClass.py:44-55 | The routing dictionary holds w·n·(3n+1) distinct variables. |
| Universe.X2Keys | UAVModelClass.py:57-62 | The return keys all point to the sink n+w+1. A target may return any vehicle and a base only its own, and each key occurs once. |
| Universe.X2Count | UAVModelClass.py:57-62 | The return dictionary holds (n+1)·w distinct variables. |
| Universe.T2Keys | UAVModelClass.py:64-65 | There is one launch time per vehicle, w in all. |
| Universe.T1Keys | UAVModelClass.py:67-69 | There is one completion time per target and task, 3n in all. |
| Objective.GoalOf | UAVModelClass.py:73-82 | Code 1 is total flight time, 2 the makespan and 3 the number of returns. Any other code leaves the model without an objective, and the weighted objective is never chosen by code. |
| Objective.FlightTimeSplit | UAVModelClass.py:75-76 | The flight-time objective is the flown time off the diagonal plus the self-loop attack durations, which it charges as well. |
| Objective.FleetFlightBound | UAVModelClass.py:234-238 | Under the endurance rows the whole fleet flies at most w·T between distinct nodes. |
| Objective.FlightTimeBound | UAVModelClass.py:234-238 | Within endurance, the flight-time objective is at most w·T plus the self-loop durations it charges. |
| Objective.ReturnedBound | UAVModelClass.py:80-81 | Under the single-return rows the returned-vehicles objective lies between 0 and w. |
| Objective.WeightedAboveMakespan | UAVModel.py:128 | The weighted completion objective is never below the makespan, which is non-negative. |
| Objective.MakespanCoversChain | UAVModelClass.py:240-243 | Under the makespan and task-order rows, the makespan objective bounds each target's verification and lies at least 2·delay after its classification. |
| Properties.OnePerformer | UAVModelClass.py:87-97 | Each task on each target is done by exactly one active leg. Classify and verify come from a vehicle that flew in from another node; the attack may be the self-loop. |
| Properties.EntersOnce | UAVModelClass.py:110-115 | Two active legs of one vehicle into the same target from other nodes are the same leg. |
| Properties.ClassifierNotVerifier | UAVModelClass.py:87-115 | The vehicle that flies in to classify a target and the one that flies in to verify it are different vehicles. |
| Properties.OneVehicleInfeasible | UAVModelClass.py:87-115 | With one vehicle and at least one target, no variant has a feasible solution. |
| Properties.ReturnsOnce | UAVModelClass.py:116-119 | Two active returns of one vehicle are the same return. |
| Findings.CoupledArrivalBlocksReturn | UAVModelClass.py:121-123 | Under the class formulation's leave row, a vehicle that reached target j from another target does not return to the sink from j, and it reached j that way only once. |
| Properties.AttacksOnce | UAVModelClass.py:125-128 | With one munition, two active attack legs of a vehicle are the same leg. |
| Properties.AttackNotVerify | UAVModelClass.py:130-135 | A vehicle never flies into a target both to attack it and to verify it. |
| Properties.ArrivalLeaves | UAVModelClass.py:138-151 | A vehicle that flew into a target to classify or verify goes on in one of three ways. It flies to another target, or it flies to the sink, or (classify only) it attacks on the self-loop. |
| Properties.AttackEndsRoute | UAVModelClass.py:153-158 | After an attack on j the attacker flies neither to another target nor to the sink from j. |
| Properties.ExitNeedsEntry | UAVModelClass.py:159-162 | A vehicle that leaves a target, to a target or to the sink, flew into it from another node. |
| Properties.BaseExit | UAVModelClass.py:164-168 | Every vehicle leaves its base exactly once. It either returns straight to the sink with no leg out of the base, or takes a single first leg to a target. |
| Properties.SelfAttackAfterClassify | UAVModelClass.py:170-173 | A self-loop attack on j is made by a vehicle that flew into j from another node to classify it. |
| Properties.PredBinary | UAVModelClass.py:181-184 | The predecessor count in a timing row's big-M slack is 0 or 1 once the vehicle enters each target at most once. |
| Properties.TimingPinned | UAVModelClass.py:176-218 | When a vehicle arrived at i for classify or verify and flies on to j, the task at j completes exactly one leg duration after that task at i. |
| Properties.TimingRelaxed | UAVModelClass.py:176-218 | When the leg or the arrival is inactive, the timing pair accepts every completion time within w·T of the pinned value. |
| Properties.RouteTimesGrow | UAVModelClass.py:176-218 | With non-negative durations, completion times do not decrease along a vehicle's route between targets. |
| Properties.LaunchPinned | UAVModelClass.py:221-227 | A first leg out of a base completes its task exactly one duration after the vehicle's launch time. |
| Properties.LaunchRelaxed | UAVModelClass.py:221-227 | With the leg inactive, the launch pair admits every completion time within the multiplier of launch plus duration. The multiplier is w·T in the class formulation and T in the script and the reduced variant. |
| Properties.LaunchBounded | UAVModel.py:258-262 | Even with the leg inactive, the launch pair keeps the completion time within the multiplier of launch plus duration. |
| Formulation.LaunchM | UAVModel_Tobias.py:125-129 | The launch pair relaxes by w·T per unit of slack in the class formulation and by T in the script and the reduced variant. |
| Properties.SelfLoopPinned | UAVModel_Tobias.py:116-123 | In the reduced variant a self-loop attack completes exactly one duration after its target's classification. |
| Formulation.FleetM | UAVModelClass.py:181-184 | The target timing rows relax by w·T per unit of slack. |
| Findings.StaleRowGroundsLastVehicle | UAVModel.py:175-178 | Any single row of the script's leave family forces the last vehicle's direct base-to-sink return to 0. |
| Findings.StaleRowRejectsStayHome | UAVModel.py:175-178 | With a target and a vehicle, the solution in which every vehicle stays home meets the out-degree rows but breaks the script's rows as written. |
| Findings.CoupledRowAdmitsStayHome | UAVModelClass.py:121-123 | The class formulation's leave rows always admit the stay-home solution. |
| Findings.CoupledRowRejectsChain | UAVModelClass.py:121-123 | With two targets and a vehicle, the route base → 1 → 2 → sink meets the out-degree rows but breaks the class formulation's row for target 2. |
| Findings.OutDegreeRowAdmitsStayHome | UAVModel.py:173-178 | In every variant, the out-degree rows admit the stay-home solution. |
| Findings.OutDegreeRowAdmitsChain | UAVModel.py:173-178 | The out-degree rows admit the route base → 1 → 2 → sink. |
| Findings.ContinuityLeavesOnce | UAVModelClass.py:159-162 | Wherever the continuity and single-visit rows hold, every out-degree row holds as well. |
| Findings.PerOriginRowForbidsReturns | UAVModel_Tobias.py:95-97 | With one target, the reduced variant's leave rows force every direct base-to-sink return to 0. With two or more targets they force every return variable to 0. |
| Findings.PerOriginRowRejectsStayHome | UAVModel_Tobias.py:95-97 | With a target and a vehicle, the stay-home solution meets the out-degree rows but breaks the reduced variant's rows. |
| TimeData.SetupData | UAVModelClass.py:34-40 | Random data has a duration exactly for origins 1..n+w, targets 1..n, every vehicle and task, each being that key's draw. |
| TimeData.RandomDataCovers | UAVModelClass.py:34-40 | Random data covers every duration any variant reads, and each one is between 1 and 30 minutes. |
| TimeData.TravelTime | f_helper.py:14-15 | Travel minutes times the speed equal sixty times the distance. |
| TimeData.CreateTimeDictionary | f_helper.py:18-55 | The helper fails, by dividing by zero, exactly when the speed is 0, there is at least one start and two distinct nodes exist. Otherwise it has a key for every pair of distinct nodes with every vehicle and task, plus the attack self-loops. A self-loop costs the attack's 2 minutes; any other leg costs travel plus task minutes. |
| TimeData.DictionaryTravel | f_helper.py:41-48 | Off the diagonal, the duration minus the task minutes times the speed equals sixty times the distance. |
| TimeData.DictionaryCovers | f_helper.py:18-55 | The helper's dictionary covers every duration any variant reads, because targets are numbered first. |
| TimeData.DictionaryVehicleBlind | f_helper.py:37-52 | Durations do not depend on the vehicle. |
| TimeData.DictionaryPositive | f_helper.py:29-48 | With a positive speed and non-negative distances, every duration is at least the task's minutes, so at least one minute. |
| Build.FirstMissing | UAVModelClass.py:76 | The search finds a selected key missing from the dictionary exactly when one exists. |
| Build.BuildModel | UAVModelClass.py:7-32 | Construction fails exactly when a duration some row or the objective reads is missing, and then names such a key. Otherwise all read durations are present, and the model holds w·n·(3n+1), (n+1)·w, 3n and w variables of the four kinds. |
| Build.RandomDataBuilds | UAVModelClass.py:26-32 | Without a dictionary the class always builds. |
| Build.DictionaryBuilds | f_helper.py:18-55 | A dictionary from the location helper always builds. |
| Build.OffDiagonalDataBuilds | UAVModelClass.py:73-82 | A dictionary of flown legs alone builds exactly when the variant does not time self-loops and the objective is not total flight time, or the instance is empty. |

## Left out

- The solver call, optimality of the returned solution, and `optimize`, `save` and the result pickles: the model states feasibility and objective values only.
- The drivers, plotting, sensitivity studies, case studies and the unit-test file: they only call the formulation.
- The great-circle distance: `dist` is a parameter of the location helper, because it is floating-point trigonometry.
- Random numbers: `randint(1, 30)` is a `draw` parameter that is assumed to stay in range.
- Floating point: durations, times and sums are exact reals, and summation order is not modelled.
- Build.BuildModel: it names some missing key that is read, not necessarily the one Python would hit first, because the model does not follow the order in which rows are added.
- The module-level script's fixed n = 5, w = 10, T = 100 and delay = 1 are parameters, like the class's arguments.
- Bounds and variable types are modelled as solution well-formedness: binaries are 0 or 1, and continuous variables are non-negative (the solver's default lower bound).

## Findings

| source | as written | input that shows it | evidently intended | confidence | as-written member | corrected member |
|---|---|---|---|---|---|---|
| UAVModel.py:175-178 | The row for (v, j) sums over an `i` left over from an earlier module-level loop (the last node, n+w). Its inner `for v` rebinds the outer vehicle, so the same row is added w times per target. It counts the last base's legs into j plus that base's return, once per task. | n = 1, w = 1, with every vehicle staying at its base: the script's row for target 1 sums to 3, above its bound of 1. | The row its comment describes (UAVModel.py:173): v's legs out of j to other targets plus v's return from j, at most 1. | high; not executed | Findings.StaleRowRejectsStayHome | Findings.OutDegreeRowAdmitsStayHome |
| UAVModel_Tobias.py:95-97 | The sum runs over every origin and task and adds the origin's return variable inside the sum, so each return is counted once per task flown from that origin. | n = 1, w = 1, with the vehicle staying at its base: the row for target 1 sums to 3, above its bound of 1. With n ≥ 2 every return variable is forced to 0. | The line has no comment of its own. The family is the one the script describes as "AV v leaves node j at most once" (UAVModel.py:173): v's legs out of j plus v's return from j, at most 1. | medium; not executed | Findings.PerOriginRowForbidsReturns | Findings.OutDegreeRowAdmitsStayHome |
| UAVModelClass.py:121-123 | The row for (v, j) sums v's legs into j from other targets plus v's return from j, at most 1. The continuity rows at 153-162 put the same guard on the legs out of j, so this row has the origin and the destination swapped. | n = 2, w = 2, with vehicle 1 flying base → 1 (classify) → 2 (verify) → sink: the row for target 2 sums the leg 1 → 2 and the return from 2, 2 in all. In general a vehicle that reached j from another target can never return from j (Findings.CoupledArrivalBlocksReturn). | v's legs out of j to other targets plus v's return from j, at most 1, as the script's comment (UAVModel.py:173) describes. Where the continuity rows are generated, the out-degree row is already implied by them (Findings.ContinuityLeavesOnce). | medium; not executed | Findings.CoupledRowRejectsChain | Findings.OutDegreeRowAdmitsChain |
