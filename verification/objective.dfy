/** The objective modes of the formulations and what they measure. */
module Objective {
  import opened Nodes
  import opened Seqs
  import opened Universe
  import opened Formulation

  datatype Goal =
    | MinFlightTime          // total duration of the active legs, self-loops included
    | MinMakespan            // the makespan variable
    | MaxReturned            // number of vehicles that fly to the sink
    | MinWeightedCompletion  // a tenth of all completion times plus the makespan
    | NoGoal                 // no objective is set: every feasible solution is optimal

  /** The class formulation's objective selector. */
  function GoalOf(code: int): (g: Goal)
    ensures g == NoGoal <==> !(1 <= code <= 3)
    ensures g != MinWeightedCompletion
    ensures code == 1 <==> g == MinFlightTime
    ensures code == 3 <==> g == MaxReturned
  {
    if code == 1 then MinFlightTime
    else if code == 2 then MinMakespan
    else if code == 3 then MaxReturned
    else NoGoal
  }

  /** The fixed objective of the module-level script and the reduced class. */
  const ScriptGoal := MinWeightedCompletion

  predicate Maximizes(g: Goal) {
    g == MaxReturned
  }

  function AllLegs(): Leg -> bool {
    (l: Leg) => true
  }

  function SelfLoopLegs(): Leg -> bool {
    (l: Leg) => l.i == l.j
  }

  function OffDiagonal(): Leg -> bool {
    (l: Leg) => l.i != l.j
  }

  /** Flown legs of the vehicles 1..m. */
  function FlownUpTo(m: int): Leg -> bool {
    (l: Leg) => l.i != l.j && l.v <= m
  }

  function AllReturns(): SinkLeg -> bool {
    (s: SinkLeg) => true
  }

  /** Return legs of the vehicles 1..m. */
  function ReturnsUpTo(m: int): SinkLeg -> bool {
    (s: SinkLeg) => s.v <= m
  }

  function DoneOf(sol: Solution): Slot -> real {
    (s: Slot) => Done(sol, s.j, s.k)
  }

  /** Sum of all completion times `t1`. */
  ghost function TotalCompletion(inst: Instance, sol: Solution): real {
    SumR(T1Domain(inst.n), DoneOf(sol))
  }

  /** The objective expression of each mode. */
  ghost function Value(inst: Instance, sol: Solution, g: Goal): real {
    match g
    case MinFlightTime => Flown(inst, sol, AllLegs())
    case MinMakespan => sol.t
    case MaxReturned => Returned(inst, sol, AllReturns()) as real
    case MinWeightedCompletion => 0.1 * TotalCompletion(inst, sol) + sol.t
    case NoGoal => 0.0
  }

  /** The flight-time objective charges the self-loop durations that the
      endurance family leaves out. */
  lemma FlightTimeSplit(inst: Instance, sol: Solution)
    ensures Value(inst, sol, MinFlightTime)
         == Flown(inst, sol, OffDiagonal()) + Flown(inst, sol, SelfLoopLegs())
  {
    SumRSelectSplit(X1Domain(inst.n, inst.w), AllLegs(), OffDiagonal(), SelfLoopLegs(), FlownOf(inst, sol));
  }

  /** The first m vehicles together fly at most m endurances. */
  lemma {:induction false} FleetFlownUpTo(inst: Instance, sol: Solution, m: int)
    requires EnduranceLimit(inst, sol) && 0 <= m <= inst.w
    ensures Flown(inst, sol, FlownUpTo(m)) <= Scale(m, inst.T)
  {
    var keys := X1Domain(inst.n, inst.w);
    if m == 0 {
      SelectNone(keys, FlownUpTo(0));
    } else {
      FleetFlownUpTo(inst, sol, m - 1);
      SumRSelectSplit(keys, FlownUpTo(m), FlownUpTo(m - 1), FlownBy(m), FlownOf(inst, sol));
      assert Flown(inst, sol, FlownBy(m)) <= inst.T;
    }
  }

  /** Every key's vehicle is one of 1..w. */
  lemma OffDiagonalIsFleet(n: nat, w: nat)
    ensures Select(X1Domain(n, w), OffDiagonal()) == Select(X1Domain(n, w), FlownUpTo(w))
  {
    var keys := X1Domain(n, w);
    forall l: Leg | l in keys
      ensures OffDiagonal()(l) == FlownUpTo(w)(l)
    {
      assert IsX1Key(n, w, l);
    }
    SelectSame(keys, OffDiagonal(), FlownUpTo(w));
  }

  /** The endurance family bounds the fleet's flown time by w*T. */
  lemma FleetFlightBound(inst: Instance, sol: Solution)
    requires EnduranceLimit(inst, sol)
    ensures Flown(inst, sol, OffDiagonal()) <= FleetM(inst)
  {
    OffDiagonalIsFleet(inst.n, inst.w);
    FleetFlownUpTo(inst, sol, inst.w);
  }

  /** The flight-time objective of a solution within endurance is at most w*T
      plus the self-loop durations it charges. */
  lemma FlightTimeBound(inst: Instance, sol: Solution)
    requires EnduranceLimit(inst, sol)
    ensures Value(inst, sol, MinFlightTime)
         <= FleetM(inst) + Flown(inst, sol, SelfLoopLegs())
  {
    FlightTimeSplit(inst, sol);
    FleetFlightBound(inst, sol);
  }

  /** The first m vehicles return at most m times. */
  lemma {:induction false} ReturnedUpTo(inst: Instance, sol: Solution, m: int)
    requires SinkOnce(inst, sol) && 0 <= m <= inst.w
    ensures Returned(inst, sol, ReturnsUpTo(m)) <= m
  {
    var keys := X2Domain(inst.n, inst.w);
    if m == 0 {
      SelectNone(keys, ReturnsUpTo(0));
    } else {
      ReturnedUpTo(inst, sol, m - 1);
      ReturnsUpToSplit(inst, sol, m);
      assert Returned(inst, sol, ReturnOf(m)) <= 1;
    }
  }

  /** The returns of vehicles 1..m are those of 1..m-1 plus those of m. */
  lemma ReturnsUpToSplit(inst: Instance, sol: Solution, m: int)
    ensures Returned(inst, sol, ReturnsUpTo(m)) == Returned(inst, sol, ReturnsUpTo(m - 1)) + Returned(inst, sol, ReturnOf(m))
  {
    var keys := X2Domain(inst.n, inst.w);
    assert forall x: SinkLeg | x in keys :: (ReturnsUpTo(m)(x) <==> ReturnsUpTo(m - 1)(x) || ReturnOf(m)(x))
                                    && !(ReturnsUpTo(m - 1)(x) && ReturnOf(m)(x));
    SumSelectSplit(keys, ReturnsUpTo(m), ReturnsUpTo(m - 1), ReturnOf(m), YOf(sol));
  }

  /** The returned-vehicles objective counts each vehicle at most once. */
  lemma ReturnedBound(inst: Instance, sol: Solution)
    requires WellFormed(inst, sol) && SinkOnce(inst, sol)
    ensures 0.0 <= Value(inst, sol, MaxReturned) <= inst.w as real
  {
    var keys := X2Domain(inst.n, inst.w);
    SelectSame(keys, AllReturns(), ReturnsUpTo(inst.w));
    ReturnedUpTo(inst, sol, inst.w);
    SelectDistinct(keys, AllReturns());
    SumNonNeg(Select(keys, AllReturns()), YOf(sol));
  }

  /** The weighted objective never undercuts the makespan, since completion
      times are non-negative. */
  lemma WeightedAboveMakespan(inst: Instance, sol: Solution)
    requires WellFormed(inst, sol)
    ensures Value(inst, sol, MinWeightedCompletion) >= sol.t >= 0.0
  {
    SumRNonNeg(T1Domain(inst.n), DoneOf(sol));
  }

  /** With the makespan family the makespan objective bounds every
      completion time, and so the whole classify-attack-verify chain. */
  lemma MakespanCoversChain(inst: Instance, sol: Solution, j: int)
    requires Makespan(inst, sol) && TaskOrder(inst, sol) && IsTarget(inst.n, j)
    ensures Value(inst, sol, MinMakespan) >= Done(sol, j, Verify)
    ensures Value(inst, sol, MinMakespan) >= Done(sol, j, Classify) + 2.0 * inst.delay
  {
    assert IsTask(Verify);
  }
}
