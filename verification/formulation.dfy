/** The constraint families of the strike formulation, stated as a feasibility
    predicate over a candidate solution (the values a solver would return).

    Each `quicksum` of the source is `Active`, `Returned` or `Flown` of a guard:
    the sum of a term over the generated keys that satisfy the guard, which is
    how the source's `if (i, j, v, k) in self.x1` filters read. */
module Formulation {
  import opened Nodes
  import opened Seqs
  import opened Universe

  /** The data one model instance is built from. */
  datatype Instance = Instance(n: nat, w: nat, T: real, delay: real, time: map<Leg, real>)

  /** Solved values: binaries `x1`, `x2`, completion times `t1`, launch times
      `t2` and the makespan `t`. */
  datatype Solution = Solution(
    x1: map<Leg, int>,
    x2: map<SinkLeg, int>,
    t1: map<Slot, real>,
    t2: map<int, real>,
    t: real)

  /** Big-M multiplier of the base-launch timing pair. */
  datatype Multiplier = FleetEndurance | Endurance

  /** The shapes of the "vehicle v leaves node j at most once" family: the
      three the formulation files generate, and the out-degree row their
      comment describes. */
  datatype LeaveRule =
    | ArrivalSinkCoupling  // target-to-target legs into j plus the sink leg from j
    | PerOriginSum         // every leg into j plus its origin's sink leg, per task
    | LastOrigin           // legs into j from node n+w plus that node's sink leg, per task
    | OutDegree            // legs out of j to other targets plus the sink leg from j

  /** Which families a formulation file generates, and with which multiplier. */
  datatype Variant = Variant(
    leave: LeaveRule,
    munition: bool,
    attackVerifyExclusive: bool,
    continuity: bool,
    selfLoopTiming: bool,
    launch: Multiplier,
    makespan: bool)

  /** The class formulation. */
  const ClassModel := Variant(ArrivalSinkCoupling, true, true, true, false, FleetEndurance, true)
  /** The module-level script. */
  const ScriptModel := Variant(LastOrigin, true, true, true, false, Endurance, false)
  /** The reduced class variant. */
  const TobiasModel := Variant(PerOriginSum, false, false, false, true, Endurance, false)

  /** A formulation with its leave family replaced by the out-degree row. */
  function Repaired(cfg: Variant): Variant {
    cfg.(leave := OutDegree)
  }

  // ------------------------------------------------------------ value lookup

  function X(sol: Solution, l: Leg): int {
    if l in sol.x1 then sol.x1[l] else 0
  }

  function Y(sol: Solution, s: SinkLeg): int {
    if s in sol.x2 then sol.x2[s] else 0
  }

  /** `t1[j, k]`, the completion time of task k on target j. */
  function Done(sol: Solution, j: int, k: int): real {
    if Slot(j, k) in sol.t1 then sol.t1[Slot(j, k)] else 0.0
  }

  /** `t2[v]`, the launch time of vehicle v. */
  function Launch(sol: Solution, v: int): real {
    if v in sol.t2 then sol.t2[v] else 0.0
  }

  /** `time[i, j, v, k]`; only consulted for keys `TimesCovered` guarantees. */
  function Dur(inst: Instance, l: Leg): real {
    if l in inst.time then inst.time[l] else 0.0
  }

  function XOf(sol: Solution): Leg -> int {
    (l: Leg) => X(sol, l)
  }

  function YOf(sol: Solution): SinkLeg -> int {
    s => Y(sol, s)
  }

  function FlownOf(inst: Instance, sol: Solution): Leg -> real {
    (l: Leg) => Dur(inst, l) * (X(sol, l) as real)
  }

  /** The return leg of vehicle v from node i. */
  function SinkAt(inst: Instance, i: int, v: int): SinkLeg {
    SinkLeg(i, Sink(inst.n, inst.w), v)
  }

  // ------------------------------------------------------------ sums

  /** Number of active `x1` legs among the keys satisfying `g`. */
  ghost function Active(inst: Instance, sol: Solution, g: Leg -> bool): int {
    Sum(Select(X1Domain(inst.n, inst.w), g), XOf(sol))
  }

  /** Number of active `x2` legs among the keys satisfying `g`. */
  ghost function Returned(inst: Instance, sol: Solution, g: SinkLeg -> bool): int {
    Sum(Select(X2Domain(inst.n, inst.w), g), YOf(sol))
  }

  /** Total duration of the active `x1` legs among the keys satisfying `g`. */
  ghost function Flown(inst: Instance, sol: Solution, g: Leg -> bool): real {
    SumR(Select(X1Domain(inst.n, inst.w), g), FlownOf(inst, sol))
  }

  // ------------------------------------------------------------ guards

  /** Legs of vehicle v arriving at j for task k from another node. */
  function Into(j: int, v: int, k: int): Leg -> bool {
    (l: Leg) => l.j == j && l.v == v && l.k == k && l.i != j
  }

  /** Legs of vehicle v performing task k at j, self-loop included. */
  function Reach(j: int, v: int, k: int): Leg -> bool {
    (l: Leg) => l.j == j && l.v == v && l.k == k
  }

  /** Legs of vehicle v entering j from another node, any task. */
  function Entering(j: int, v: int): Leg -> bool {
    (l: Leg) => l.j == j && l.v == v && l.i != j
  }

  /** Legs of vehicle v entering j from another target. */
  function FromTargets(n: nat, j: int, v: int): Leg -> bool {
    (l: Leg) => l.j == j && l.v == v && l.i != j && IsTarget(n, l.i)
  }

  /** Legs of vehicle v leaving target j for another target. */
  function OutOf(j: int, v: int): Leg -> bool {
    (l: Leg) => l.i == j && l.v == v && l.j != j
  }

  /** Legs performing task k on j from another node, any vehicle. */
  function TaskOn(j: int, k: int): Leg -> bool {
    (l: Leg) => l.j == j && l.k == k && l.i != j
  }

  /** Attack legs on j, any vehicle, self-loop included. */
  function AttackOn(j: int): Leg -> bool {
    (l: Leg) => l.j == j && l.k == Attack
  }

  /** Attack legs of vehicle v anywhere on its route. */
  function AttacksBy(v: int): Leg -> bool {
    (l: Leg) => l.v == v && l.k == Attack
  }

  /** First legs of vehicle v out of its base. */
  function LaunchedBy(n: nat, v: int): Leg -> bool {
    (l: Leg) => l.i == BaseOf(n, v) && l.v == v
  }

  /** Legs of vehicle v that are flown (self-loops excluded). */
  function FlownBy(v: int): Leg -> bool {
    (l: Leg) => l.v == v && l.i != l.j
  }

  /** Return legs of vehicle v. */
  function ReturnOf(v: int): SinkLeg -> bool {
    (s: SinkLeg) => s.v == v
  }

  /** Legs of v into j from an origin that also has a return leg for v. */
  function PairedOrigin(n: nat, w: nat, j: int, v: int): Leg -> bool {
    (l: Leg) => l.j == j && l.v == v && l.i != j && IsX2Key(n, w, SinkLeg(l.i, Sink(n, w), v))
  }

  /** Legs into j from the last node n+w, for any vehicle with a return leg
      there: the origin the script's rows read is the value its last
      module-level loop left behind. */
  function LastOriginInto(n: nat, w: nat, j: int): Leg -> bool {
    (l: Leg) => l.i == n + w && l.j == j && IsX2Key(n, w, SinkLeg(l.i, Sink(n, w), l.v))
  }

  /** A leg plus the return leg of the same vehicle from the leg's origin. */
  function LegPlusReturn(n: nat, w: nat, sol: Solution): Leg -> int {
    (l: Leg) => X(sol, l) + Y(sol, SinkLeg(l.i, Sink(n, w), l.v))
  }

  // ------------------------------------------------------------ domains

  /** Every variable exists exactly for its generated keys; binaries take 0 or 1
      and continuous variables keep the solver's default lower bound 0. */
  ghost predicate WellFormed(inst: Instance, sol: Solution) {
    var n, w := inst.n, inst.w;
    && (forall l: Leg :: l in sol.x1 <==> IsX1Key(n, w, l))
    && (forall l | l in sol.x1 :: 0 <= sol.x1[l] <= 1)
    && (forall s: SinkLeg :: s in sol.x2 <==> IsX2Key(n, w, s))
    && (forall s | s in sol.x2 :: 0 <= sol.x2[s] <= 1)
    && (forall s: Slot :: s in sol.t1 <==> IsT1Key(n, s))
    && (forall s | s in sol.t1 :: sol.t1[s] >= 0.0)
    && (forall v: int :: v in sol.t2 <==> IsVehicle(w, v))
    && (forall v | v in sol.t2 :: sol.t2[v] >= 0.0)
    && sol.t >= 0.0
  }

  /** Every duration the constraint families read is present. */
  ghost predicate TimesCovered(inst: Instance, cfg: Variant) {
    forall l: Leg | IsX1Key(inst.n, inst.w, l) && (l.i != l.j || cfg.selfLoopTiming) :: l in inst.time
  }

  // ------------------------------------------------------------ families

  /** Every task on every target is performed exactly once. */
  ghost predicate Completeness(inst: Instance, sol: Solution) {
    forall j {:trigger TaskOn(j, Classify)} {:trigger AttackOn(j)} {:trigger TaskOn(j, Verify)} | IsTarget(inst.n, j) ::
      && Active(inst, sol, TaskOn(j, Classify)) == 1
      && Active(inst, sol, AttackOn(j)) == 1
      && Active(inst, sol, TaskOn(j, Verify)) == 1
  }

  /** At most one vehicle performs each task on each target. */
  ghost predicate Uniqueness(inst: Instance, sol: Solution) {
    forall j {:trigger TaskOn(j, Classify)} {:trigger AttackOn(j)} {:trigger TaskOn(j, Verify)} | IsTarget(inst.n, j) ::
      && Active(inst, sol, TaskOn(j, Classify)) <= 1
      && Active(inst, sol, AttackOn(j)) <= 1
      && Active(inst, sol, TaskOn(j, Verify)) <= 1
  }

  /** A vehicle enters a target at most once, whatever the task. */
  ghost predicate SingleVisit(inst: Instance, sol: Solution) {
    forall v, j {:trigger Entering(j, v)} | IsVehicle(inst.w, v) && IsTarget(inst.n, j) ::
      Active(inst, sol, Entering(j, v)) <= 1
  }

  /** A vehicle enters the sink at most once. */
  ghost predicate SinkOnce(inst: Instance, sol: Solution) {
    forall v {:trigger ReturnOf(v)} | IsVehicle(inst.w, v) :: Returned(inst, sol, ReturnOf(v)) <= 1
  }

  /** The "leaves j at most once" family in the shape the variant generates. */
  ghost predicate LeaveOnce(inst: Instance, cfg: Variant, sol: Solution) {
    forall v, j {:trigger FromTargets(inst.n, j, v)} {:trigger PairedOrigin(inst.n, inst.w, j, v)} {:trigger OutOf(j, v)}
             | IsVehicle(inst.w, v) && IsTarget(inst.n, j) ::
      match cfg.leave
      case ArrivalSinkCoupling =>
        Active(inst, sol, FromTargets(inst.n, j, v)) + Y(sol, SinkAt(inst, j, v)) <= 1
      case PerOriginSum =>
        Sum(Select(X1Domain(inst.n, inst.w), PairedOrigin(inst.n, inst.w, j, v)),
            LegPlusReturn(inst.n, inst.w, sol)) <= 1
      case LastOrigin =>
        Sum(Select(X1Domain(inst.n, inst.w), LastOriginInto(inst.n, inst.w, j)),
            LegPlusReturn(inst.n, inst.w, sol)) <= 1
      case OutDegree =>
        Active(inst, sol, OutOf(j, v)) + Y(sol, SinkAt(inst, j, v)) <= 1
  }

  /** One munition per vehicle. */
  ghost predicate Munition(inst: Instance, sol: Solution) {
    forall v {:trigger AttacksBy(v)} | IsVehicle(inst.w, v) :: Active(inst, sol, AttacksBy(v)) <= 1
  }

  /** A vehicle that flies in to verify j does not fly in to attack j. */
  ghost predicate AttackVerifyExclusive(inst: Instance, sol: Solution) {
    forall v, j {:trigger Into(j, v, Attack)} {:trigger Into(j, v, Verify)} | IsVehicle(inst.w, v) && IsTarget(inst.n, j) ::
      Active(inst, sol, Into(j, v, Attack)) <= 1 - Active(inst, sol, Into(j, v, Verify))
  }

  /** Flow conservation at a target: verify and classify arrivals leave again
      (classify possibly through the self-loop attack), an attack ends the
      vehicle's route, and nothing leaves a target the vehicle did not enter. */
  ghost predicate Continuity(inst: Instance, sol: Solution) {
    forall v, j {:trigger OutOf(j, v)} {:trigger Into(j, v, Verify)} {:trigger Into(j, v, Classify)}
               {:trigger Reach(j, v, Attack)} {:trigger Entering(j, v)} | IsVehicle(inst.w, v) && IsTarget(inst.n, j) ::
      var out := Active(inst, sol, OutOf(j, v)) + Y(sol, SinkAt(inst, j, v));
      && Active(inst, sol, Into(j, v, Verify)) <= out
      && Active(inst, sol, Into(j, v, Classify)) <= out + X(sol, Leg(j, j, v, Attack))
      && out <= 1 - Active(inst, sol, Reach(j, v, Attack))
      && out <= Active(inst, sol, Entering(j, v))
  }

  /** Every vehicle leaves its base exactly once, to a target or to the sink. */
  ghost predicate BaseEgress(inst: Instance, sol: Solution) {
    forall v {:trigger LaunchedBy(inst.n, v)} | IsVehicle(inst.w, v) ::
      Active(inst, sol, LaunchedBy(inst.n, v)) + Y(sol, SinkAt(inst, BaseOf(inst.n, v), v)) == 1
  }

  /** The self-loop attack needs a classify arrival of the same vehicle. */
  ghost predicate SelfAttackNeedsClassify(inst: Instance, sol: Solution) {
    forall v, j {:trigger Reach(j, v, Classify)} | IsVehicle(inst.w, v) && IsTarget(inst.n, j) ::
      X(sol, Leg(j, j, v, Attack)) <= Active(inst, sol, Reach(j, v, Classify))
  }

  /** The linearised "if both indicators are 1 then lhs == rhs" pair. */
  ghost predicate BigMPair(lhs: real, rhs: real, slack: int, m: real) {
    lhs <= rhs + Scale(slack, m) && lhs >= rhs - Scale(slack, m)
  }

  /** `slack * m`, spelled as repeated addition so that the verifier reasons
      about the timing families without non-linear real arithmetic (see
      `ScaleIsProduct`). */
  function Scale(slack: int, m: real): real
    decreases if slack < 0 then -slack else slack
  {
    if slack == 0 then 0.0
    else if slack > 0 then Scale(slack - 1, m) + m
    else Scale(slack + 1, m) - m
  }

  lemma {:induction false} ScaleIsProduct(slack: int, m: real)
    ensures Scale(slack, m) == (slack as real) * m
    decreases if slack < 0 then -slack else slack
  {
    if slack > 0 {
      ScaleIsProduct(slack - 1, m);
    } else if slack < 0 {
      ScaleIsProduct(slack + 1, m);
    }
  }

  /** A positive slack relaxes the pair by at least one multiplier. */
  lemma {:induction false} ScaleAtLeast(slack: int, m: real)
    requires slack >= 1 && m >= 0.0
    ensures Scale(slack, m) >= m
  {
    if slack > 1 {
      ScaleAtLeast(slack - 1, m);
    }
  }

  /** Multiplier w·T of the target timing pairs (the fleet's endurance). */
  function FleetM(inst: Instance): (m: real)
    ensures m == (inst.w as real) * inst.T
  {
    ScaleIsProduct(inst.w, inst.T);
    Scale(inst.w, inst.T)
  }

  /** Multiplier of the base-launch timing pair: the fleet's endurance w·T
      in the class formulation, one vehicle's endurance T in the script and
      the reduced variant. */
  function LaunchM(inst: Instance, cfg: Variant): (m: real)
    ensures cfg.launch == FleetEndurance ==> m == (inst.w as real) * inst.T
    ensures cfg.launch == Endurance ==> m == inst.T
  {
    match cfg.launch
    case FleetEndurance => FleetM(inst)
    case Endurance => inst.T
  }

  /** The predecessor indicator: v arrived at i for task c. */
  ghost function Pred(inst: Instance, sol: Solution, i: int, v: int, c: int): int {
    Active(inst, sol, Into(i, v, c))
  }

  /** The timing pair of leg `l` with predecessor task `c`: when `l` is
      active and its vehicle arrived at `l.i` for task `c`, task `l.k` at
      `l.j` completes one leg duration after task `c` at `l.i`. */
  ghost predicate PairTimed(inst: Instance, sol: Solution, l: Leg, c: int) {
    BigMPair(Done(sol, l.j, l.k), Done(sol, l.i, c) + Dur(inst, l),
             2 - X(sol, l) - Pred(inst, sol, l.i, l.v, c), FleetM(inst))
  }

  /** Target-to-target legs, with the classify and the verify predecessor. */
  ghost predicate TargetTiming(inst: Instance, sol: Solution) {
    forall i, j, v, k {:trigger PairTimed(inst, sol, Leg(i, j, v, k), Classify)}
                      {:trigger PairTimed(inst, sol, Leg(i, j, v, k), Verify)} |
      IsTarget(inst.n, i) && IsTarget(inst.n, j) && i != j && IsVehicle(inst.w, v) && IsTask(k) ::
      PairTimed(inst, sol, Leg(i, j, v, k), Classify) && PairTimed(inst, sol, Leg(i, j, v, k), Verify)
  }

  /** The classify-predecessor pair generated for self-loops too, by the
      reduced variant. */
  ghost predicate SelfLoopTiming(inst: Instance, sol: Solution) {
    forall j, v {:trigger PairTimed(inst, sol, Leg(j, j, v, Attack), Classify)} | IsTarget(inst.n, j) && IsVehicle(inst.w, v) ::
      PairTimed(inst, sol, Leg(j, j, v, Attack), Classify)
  }

  /** A first leg from the base of v to j for task k completes k one
      duration after the launch. */
  ghost predicate LaunchTimed(inst: Instance, cfg: Variant, sol: Solution, j: int, v: int, k: int) {
    var l := Leg(BaseOf(inst.n, v), j, v, k);
    BigMPair(Done(sol, j, k), Launch(sol, v) + Dur(inst, l), 1 - X(sol, l), LaunchM(inst, cfg))
  }

  ghost predicate LaunchTiming(inst: Instance, cfg: Variant, sol: Solution) {
    forall j, v, k {:trigger LaunchTimed(inst, cfg, sol, j, v, k)} | IsTarget(inst.n, j) && IsVehicle(inst.w, v) && IsTask(k) ::
      LaunchTimed(inst, cfg, sol, j, v, k)
  }

  /** Classify, attack and verify on a target are each a delay apart. */
  ghost predicate TaskOrder(inst: Instance, sol: Solution) {
    forall j | IsTarget(inst.n, j) ::
      && Done(sol, j, Classify) + inst.delay <= Done(sol, j, Attack)
      && Done(sol, j, Attack) + inst.delay <= Done(sol, j, Verify)
  }

  /** The flown legs of a vehicle fit its endurance. */
  ghost predicate EnduranceLimit(inst: Instance, sol: Solution) {
    forall v {:trigger FlownBy(v)} | IsVehicle(inst.w, v) :: Flown(inst, sol, FlownBy(v)) <= inst.T
  }

  /** The makespan bounds every completion time. */
  ghost predicate Makespan(inst: Instance, sol: Solution) {
    forall j, k | IsTarget(inst.n, j) && IsTask(k) :: sol.t >= Done(sol, j, k)
  }

  /** All families the variant generates hold of the solution. */
  ghost predicate Feasible(inst: Instance, cfg: Variant, sol: Solution) {
    && WellFormed(inst, sol)
    && TimesCovered(inst, cfg)
    && Completeness(inst, sol)
    && Uniqueness(inst, sol)
    && SingleVisit(inst, sol)
    && SinkOnce(inst, sol)
    && LeaveOnce(inst, cfg, sol)
    && (cfg.munition ==> Munition(inst, sol))
    && (cfg.attackVerifyExclusive ==> AttackVerifyExclusive(inst, sol))
    && (cfg.continuity ==> Continuity(inst, sol))
    && BaseEgress(inst, sol)
    && SelfAttackNeedsClassify(inst, sol)
    && TargetTiming(inst, sol)
    && (cfg.selfLoopTiming ==> SelfLoopTiming(inst, sol))
    && LaunchTiming(inst, cfg, sol)
    && TaskOrder(inst, sol)
    && EnduranceLimit(inst, sol)
    && (cfg.makespan ==> Makespan(inst, sol))
  }
}
