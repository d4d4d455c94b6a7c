/** The "vehicle v leaves node j at most once" family in the three shapes the
    formulation files generate, none of which bounds what leaves j, each set
    against the out-degree row that does: legs out of j plus the return from
    j. */
module Findings {
  import opened Nodes
  import opened Seqs
  import opened Universe
  import opened Formulation
  import opened Properties

  // ------------------------------------------------------------ two solutions

  /** A vehicle that never launches: every `x1` is 0, every base returns its
      own vehicle to the sink, every time is 0. */
  ghost function StayHome(inst: Instance): (sol: Solution)
    ensures forall l: Leg :: X(sol, l) == 0
    ensures forall s | IsX2Key(inst.n, inst.w, s) :: Y(sol, s) == (if IsBase(inst.n, inst.w, s.i) then 1 else 0)
  {
    var n, w := inst.n, inst.w;
    Solution(
      map l | l in X1Domain(n, w) :: 0,
      map s | s in X2Domain(n, w) :: if IsBase(n, w, s.i) then 1 else 0,
      map s | s in T1Domain(n) :: 0.0,
      map v | v in T2Keys(w) :: 0.0,
      0.0)
  }

  /** The stay-home solution has a value, in range, for exactly the
      generated keys. */
  lemma StayHomeWellFormed(inst: Instance)
    ensures WellFormed(inst, StayHome(inst))
  {
    var sol := StayHome(inst);
    var n, w := inst.n, inst.w;
    assert forall l: Leg :: l in sol.x1 <==> IsX1Key(n, w, l);
    assert forall s: SinkLeg :: s in sol.x2 <==> IsX2Key(n, w, s);
    assert forall s: Slot :: s in sol.t1 <==> IsT1Key(n, s);
    assert forall v: int :: v in sol.t2 <==> IsVehicle(w, v);
  }

  /** The first leg of the chain: vehicle 1 launches to classify target 1. */
  function ChainStart(inst: Instance): Leg {
    Leg(BaseOf(inst.n, 1), 1, 1, Classify)
  }

  /** The second leg: it flies on from target 1 to verify target 2. */
  function ChainHop(): Leg {
    Leg(1, 2, 1, Verify)
  }

  /** The last leg: it returns to the sink from target 2. */
  function ChainEnd(inst: Instance): SinkLeg {
    SinkAt(inst, 2, 1)
  }

  /** The route base → 1 → 2 → sink of vehicle 1; every time is 0. */
  ghost function Chain(inst: Instance): (sol: Solution)
    requires inst.n >= 2 && inst.w >= 1
    ensures forall l: Leg :: X(sol, l) == (if l == ChainStart(inst) || l == ChainHop() then 1 else 0)
    ensures forall s: SinkLeg :: Y(sol, s) == (if s == ChainEnd(inst) then 1 else 0)
  {
    var n, w := inst.n, inst.w;
    assert IsX1Key(n, w, ChainStart(inst)) && IsX1Key(n, w, ChainHop());
    assert IsX2Key(n, w, ChainEnd(inst));
    Solution(
      map l | l in X1Domain(n, w) :: if l == ChainStart(inst) || l == ChainHop() then 1 else 0,
      map s | s in X2Domain(n, w) :: if s == ChainEnd(inst) then 1 else 0,
      map s | s in T1Domain(n) :: 0.0,
      map v | v in T2Keys(w) :: 0.0,
      0.0)
  }

  lemma ChainWellFormed(inst: Instance)
    requires inst.n >= 2 && inst.w >= 1
    ensures WellFormed(inst, Chain(inst))
  {
    var sol := Chain(inst);
    var n, w := inst.n, inst.w;
    assert forall l: Leg :: l in sol.x1 <==> IsX1Key(n, w, l);
    assert forall s: SinkLeg :: s in sol.x2 <==> IsX2Key(n, w, s);
    assert forall s: Slot :: s in sol.t1 <==> IsT1Key(n, s);
    assert forall v: int :: v in sol.t2 <==> IsVehicle(w, v);
  }

  // ------------------------------------------------------------ the out-degree row

  /** The out-degree row never rules out a vehicle that stays at its base:
      nothing leaves a target. */
  lemma OutDegreeRowAdmitsStayHome(inst: Instance, cfg: Variant)
    ensures LeaveOnce(inst, Repaired(cfg), StayHome(inst))
  {
    var sol := StayHome(inst);
    forall v, j | IsVehicle(inst.w, v) && IsTarget(inst.n, j)
      ensures Active(inst, sol, OutOf(j, v)) + Y(sol, SinkAt(inst, j, v)) <= 1
    {
      SumOfNone(Select(X1Domain(inst.n, inst.w), OutOf(j, v)), XOf(sol));
      assert IsX2Key(inst.n, inst.w, SinkAt(inst, j, v));
    }
  }

  /** The out-degree row admits the route base → 1 → 2 → sink: one leg
      leaves target 1 and only the return leaves target 2. */
  lemma OutDegreeRowAdmitsChain(inst: Instance, cfg: Variant)
    requires inst.n >= 2 && inst.w >= 1
    ensures LeaveOnce(inst, Repaired(cfg), Chain(inst))
  {
    var sol := Chain(inst);
    ChainWellFormed(inst);
    forall v, j | IsVehicle(inst.w, v) && IsTarget(inst.n, j)
      ensures Active(inst, sol, OutOf(j, v)) + Y(sol, SinkAt(inst, j, v)) <= 1
    {
      var keys := Select(X1Domain(inst.n, inst.w), OutOf(j, v));
      if v == 1 && j == 1 {
        SelectDistinct(X1Domain(inst.n, inst.w), OutOf(j, v));
        assert ChainHop() in keys;
        SumOfOne(keys, XOf(sol), ChainHop());
      } else {
        SumOfNone(keys, XOf(sol));
      }
    }
  }

  /** In a formulation with the continuity family the out-degree row holds
      already: what leaves j is bounded by what entered j, and a vehicle
      enters j at most once. */
  lemma ContinuityLeavesOnce(inst: Instance, cfg: Variant, sol: Solution)
    requires WellFormed(inst, sol) && SingleVisit(inst, sol) && Continuity(inst, sol)
    ensures LeaveOnce(inst, Repaired(cfg), sol)
  {
    forall v, j | IsVehicle(inst.w, v) && IsTarget(inst.n, j)
      ensures Active(inst, sol, OutOf(j, v)) + Y(sol, SinkAt(inst, j, v)) <= 1
    {
      assert Active(inst, sol, OutOf(j, v)) + Y(sol, SinkAt(inst, j, v)) <= Active(inst, sol, Entering(j, v));
    }
  }

  // ------------------------------------------------------------ the stale row

  /** The script's row for target j, the same for every vehicle. */
  lemma StaleRowAt(inst: Instance, sol: Solution, j: int)
    requires LeaveOnce(inst, ScriptModel, sol)
    requires IsTarget(inst.n, j) && inst.w >= 1
    ensures Sum(Select(X1Domain(inst.n, inst.w), LastOriginInto(inst.n, inst.w, j)),
                LegPlusReturn(inst.n, inst.w, sol)) <= 1
  {
    ghost var row := OutOf(j, 1);
  }

  /** As written, any one row forbids the last vehicle from flying straight
      from its base to the sink: its return leg is counted once per task. */
  lemma StaleRowGroundsLastVehicle(inst: Instance, sol: Solution, j: int)
    requires WellFormed(inst, sol) && IsTarget(inst.n, j) && inst.w >= 1
    requires Sum(Select(X1Domain(inst.n, inst.w), LastOriginInto(inst.n, inst.w, j)),
                 LegPlusReturn(inst.n, inst.w, sol)) <= 1
    ensures Y(sol, SinkAt(inst, BaseOf(inst.n, inst.w), inst.w)) == 0
  {
    var n, w := inst.n, inst.w;
    var home := SinkAt(inst, BaseOf(n, w), w);
    assert IsX2Key(n, w, home);
    Binaries(inst, sol);
    ReturnCountedTwice(inst, sol, LastOriginInto(n, w, j), home, j);
  }

  /** A row of legs plus returns that holds two legs into j from the origin
      of return leg `s`, for its vehicle, leaves `s` at 0. */
  lemma ReturnCountedTwice(inst: Instance, sol: Solution, g: Leg -> bool, s: SinkLeg, j: int)
    requires forall l: Leg :: 0 <= X(sol, l)
    requires forall r: SinkLeg :: 0 <= Y(sol, r)
    requires Sum(Select(X1Domain(inst.n, inst.w), g), LegPlusReturn(inst.n, inst.w, sol)) <= 1
    requires s.s == Sink(inst.n, inst.w)
    requires IsX1Key(inst.n, inst.w, Leg(s.i, j, s.v, Classify)) && g(Leg(s.i, j, s.v, Classify))
    requires IsX1Key(inst.n, inst.w, Leg(s.i, j, s.v, Attack)) && g(Leg(s.i, j, s.v, Attack))
    ensures Y(sol, s) == 0
  {
    var keys := Select(X1Domain(inst.n, inst.w), g);
    var f := LegPlusReturn(inst.n, inst.w, sol);
    SelectDistinct(X1Domain(inst.n, inst.w), g);
    SumAtLeastTwoTerms(keys, f, Leg(s.i, j, s.v, Classify), Leg(s.i, j, s.v, Attack));
  }

  /** The counterexample: whenever there is a target and a vehicle, the
      stay-home solution satisfies the out-degree rows and breaks the
      script's rows. */
  lemma StaleRowRejectsStayHome(inst: Instance)
    requires inst.n >= 1 && inst.w >= 1
    ensures LeaveOnce(inst, Repaired(ScriptModel), StayHome(inst))
    ensures !LeaveOnce(inst, ScriptModel, StayHome(inst))
  {
    var sol := StayHome(inst);
    StayHomeWellFormed(inst);
    OutDegreeRowAdmitsStayHome(inst, ScriptModel);
    assert Y(sol, SinkAt(inst, BaseOf(inst.n, inst.w), inst.w)) == 1 by {
      assert IsX2Key(inst.n, inst.w, SinkAt(inst, BaseOf(inst.n, inst.w), inst.w));
    }
    if LeaveOnce(inst, ScriptModel, sol) {
      StaleRowAt(inst, sol, 1);
      StaleRowGroundsLastVehicle(inst, sol, 1);
      assert false;
    }
  }

  // ------------------------------------------------------------ the repeated return

  /** As written in the reduced variant, the return leg of each origin is
      added once per task flown from it: with a target no vehicle may return
      straight from its base, and with two targets or more no vehicle may
      ever return to the sink. */
  lemma PerOriginRowForbidsReturns(inst: Instance, sol: Solution, s: SinkLeg)
    requires WellFormed(inst, sol) && LeaveOnce(inst, TobiasModel, sol)
    requires IsX2Key(inst.n, inst.w, s) && inst.n >= 1
    requires IsBase(inst.n, inst.w, s.i) || inst.n >= 2
    ensures Y(sol, s) == 0
  {
    var n, w := inst.n, inst.w;
    var j := if s.i == 1 then 2 else 1;
    PerOriginRow(inst, sol, s.v, j);
    Binaries(inst, sol);
    ReturnCountedTwice(inst, sol, PairedOrigin(n, w, j, s.v), s, j);
  }

  /** The reduced variant's row for vehicle v and target j. */
  lemma PerOriginRow(inst: Instance, sol: Solution, v: int, j: int)
    requires LeaveOnce(inst, TobiasModel, sol)
    requires IsVehicle(inst.w, v) && IsTarget(inst.n, j)
    ensures Sum(Select(X1Domain(inst.n, inst.w), PairedOrigin(inst.n, inst.w, j, v)),
                LegPlusReturn(inst.n, inst.w, sol)) <= 1
  {
  }

  /** The counterexample: with a target and a vehicle the stay-home solution
      breaks the reduced variant's rows and satisfies the out-degree rows. */
  lemma PerOriginRowRejectsStayHome(inst: Instance)
    requires inst.n >= 1 && inst.w >= 1
    ensures LeaveOnce(inst, Repaired(TobiasModel), StayHome(inst))
    ensures !LeaveOnce(inst, TobiasModel, StayHome(inst))
  {
    var sol := StayHome(inst);
    StayHomeWellFormed(inst);
    var s := SinkAt(inst, BaseOf(inst.n, 1), 1);
    OutDegreeRowAdmitsStayHome(inst, TobiasModel);
    assert IsX2Key(inst.n, inst.w, s);
    if LeaveOnce(inst, TobiasModel, sol) {
      PerOriginRowForbidsReturns(inst, sol, s);
      assert false;
    }
  }

  // ------------------------------------------------------------ the arrival row

  /** The class formulation's row does not rule out a vehicle that stays at
      its base: it only couples target-to-target arrivals at j with the
      return from j. */
  lemma CoupledRowAdmitsStayHome(inst: Instance)
    ensures LeaveOnce(inst, ClassModel, StayHome(inst))
  {
    var sol := StayHome(inst);
    StayHomeWellFormed(inst);
    forall v, j | IsVehicle(inst.w, v) && IsTarget(inst.n, j)
      ensures Active(inst, sol, FromTargets(inst.n, j, v)) + Y(sol, SinkAt(inst, j, v)) <= 1
    {
      SumOfNone(Select(X1Domain(inst.n, inst.w), FromTargets(inst.n, j, v)), XOf(sol));
      assert IsX2Key(inst.n, inst.w, SinkAt(inst, j, v));
    }
  }

  /** Under the class formulation's row a vehicle that reached j from another
      target does not return to the sink from j, and it reached j that way
      once. */
  lemma CoupledArrivalBlocksReturn(inst: Instance, sol: Solution, a: Leg, b: Leg)
    requires WellFormed(inst, sol) && LeaveOnce(inst, ClassModel, sol)
    requires X(sol, a) == 1 && IsTarget(inst.n, a.i) && a.i != a.j
    ensures Y(sol, SinkAt(inst, a.j, a.v)) == 0
    ensures X(sol, b) == 1 && IsTarget(inst.n, b.i) && b.i != b.j && b.j == a.j && b.v == a.v ==> b == a
  {
    Binaries(inst, sol);
    assert IsX1Key(inst.n, inst.w, a);
    CoupledRow(inst, sol, a.v, a.j);
    CoupledRowConsequences(inst, sol, a, b);
  }

  /** The class formulation's row for vehicle v and target j. */
  lemma CoupledRow(inst: Instance, sol: Solution, v: int, j: int)
    requires LeaveOnce(inst, ClassModel, sol)
    requires IsVehicle(inst.w, v) && IsTarget(inst.n, j)
    ensures Active(inst, sol, FromTargets(inst.n, j, v)) + Y(sol, SinkAt(inst, j, v)) <= 1
  {
  }

  /** One arrival row, read for an active arrival. */
  lemma CoupledRowConsequences(inst: Instance, sol: Solution, a: Leg, b: Leg)
    requires WellFormed(inst, sol)
    requires Active(inst, sol, FromTargets(inst.n, a.j, a.v)) + Y(sol, SinkAt(inst, a.j, a.v)) <= 1
    requires X(sol, a) == 1 && IsTarget(inst.n, a.i) && a.i != a.j
    ensures Y(sol, SinkAt(inst, a.j, a.v)) == 0
    ensures X(sol, b) == 1 && IsTarget(inst.n, b.i) && b.i != b.j && b.j == a.j && b.v == a.v ==> b == a
  {
    var g := FromTargets(inst.n, a.j, a.v);
    Binaries(inst, sol);
    assert g(a);
    ActiveCounts(inst, sol, g, a);
    if X(sol, b) == 1 && IsTarget(inst.n, b.i) && b.i != b.j && b.j == a.j && b.v == a.v {
      assert g(b);
      ActiveUnique(inst, sol, g, a, b);
    }
  }

  /** The counterexample: with two targets and a vehicle, the route
      base → 1 → 2 → sink satisfies the out-degree rows and breaks the class
      formulation's row for target 2, which counts the arrival from 1 and the
      return from 2 together. */
  lemma CoupledRowRejectsChain(inst: Instance)
    requires inst.n >= 2 && inst.w >= 1
    ensures LeaveOnce(inst, Repaired(ClassModel), Chain(inst))
    ensures !LeaveOnce(inst, ClassModel, Chain(inst))
  {
    var sol := Chain(inst);
    ChainWellFormed(inst);
    OutDegreeRowAdmitsChain(inst, ClassModel);
    assert Y(sol, SinkAt(inst, 2, 1)) == 1;
    if LeaveOnce(inst, ClassModel, sol) {
      CoupledArrivalBlocksReturn(inst, sol, ChainHop(), ChainHop());
      assert false;
    }
  }
}
