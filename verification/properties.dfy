/** What a feasible solution of each formulation guarantees about routes,
    tasks and times: the consequences the constraint families are meant to
    enforce, derived from the families themselves. */
module Properties {
  import opened Nodes
  import opened Seqs
  import opened Universe
  import opened Formulation

  // ------------------------------------------------------------ sum facts

  /** In a well-formed solution every binary is 0 or 1, and only keys are 1. */
  lemma Binaries(inst: Instance, sol: Solution)
    requires WellFormed(inst, sol)
    ensures forall l: Leg :: 0 <= X(sol, l) <= 1
    ensures forall l: Leg | X(sol, l) != 0 :: IsX1Key(inst.n, inst.w, l)
    ensures forall s: SinkLeg :: 0 <= Y(sol, s) <= 1
    ensures forall s: SinkLeg | Y(sol, s) != 0 :: IsX2Key(inst.n, inst.w, s)
  {
  }

  lemma ActiveFacts(inst: Instance, sol: Solution, g: Leg -> bool)
    requires WellFormed(inst, sol)
    ensures Distinct(Select(X1Domain(inst.n, inst.w), g))
    ensures NonNeg(Select(X1Domain(inst.n, inst.w), g), XOf(sol))
    ensures Active(inst, sol, g) >= 0
  {
    Binaries(inst, sol);
    SelectDistinct(X1Domain(inst.n, inst.w), g);
    SumNonNeg(Select(X1Domain(inst.n, inst.w), g), XOf(sol));
  }

  lemma ReturnedFacts(inst: Instance, sol: Solution, g: SinkLeg -> bool)
    requires WellFormed(inst, sol)
    ensures Distinct(Select(X2Domain(inst.n, inst.w), g))
    ensures NonNeg(Select(X2Domain(inst.n, inst.w), g), YOf(sol))
    ensures Returned(inst, sol, g) >= 0
  {
    Binaries(inst, sol);
    SelectDistinct(X2Domain(inst.n, inst.w), g);
    SumNonNeg(Select(X2Domain(inst.n, inst.w), g), YOf(sol));
  }

  /** A positive count has an active leg behind it. */
  lemma ActiveWitness(inst: Instance, sol: Solution, g: Leg -> bool) returns (l: Leg)
    requires WellFormed(inst, sol) && Active(inst, sol, g) > 0
    ensures IsX1Key(inst.n, inst.w, l) && g(l) && X(sol, l) == 1
  {
    Binaries(inst, sol);
    l := SomePositive(Select(X1Domain(inst.n, inst.w), g), XOf(sol));
  }

  /** An active leg satisfying the guard is counted. */
  lemma ActiveCounts(inst: Instance, sol: Solution, g: Leg -> bool, l: Leg)
    requires WellFormed(inst, sol) && g(l) && X(sol, l) == 1
    ensures Active(inst, sol, g) >= 1
  {
    Binaries(inst, sol);
    ActiveFacts(inst, sol, g);
    SumAtLeastTerm(Select(X1Domain(inst.n, inst.w), g), XOf(sol), l);
  }

  /** A count of at most one has at most one active leg behind it. */
  lemma ActiveUnique(inst: Instance, sol: Solution, g: Leg -> bool, a: Leg, b: Leg)
    requires WellFormed(inst, sol) && Active(inst, sol, g) <= 1
    requires g(a) && X(sol, a) == 1 && g(b) && X(sol, b) == 1
    ensures a == b
  {
    Binaries(inst, sol);
    ActiveFacts(inst, sol, g);
    AtMostOnePositive(Select(X1Domain(inst.n, inst.w), g), XOf(sol), a, b);
  }

  /** A count of zero leaves every leg of the guard inactive. */
  lemma ActiveNone(inst: Instance, sol: Solution, g: Leg -> bool, l: Leg)
    requires WellFormed(inst, sol) && Active(inst, sol, g) <= 0 && g(l)
    ensures X(sol, l) == 0
  {
    Binaries(inst, sol);
    if X(sol, l) != 0 {
      ActiveCounts(inst, sol, g, l);
    }
  }

  /** A weaker guard counts at least as many legs. */
  lemma ActiveMono(inst: Instance, sol: Solution, g: Leg -> bool, h: Leg -> bool)
    requires WellFormed(inst, sol)
    requires forall l: Leg | g(l) :: h(l)
    ensures Active(inst, sol, g) <= Active(inst, sol, h)
  {
    Binaries(inst, sol);
    SumSelectMono(X1Domain(inst.n, inst.w), g, h, XOf(sol));
  }

  /** A predecessor indicator is 0 or 1 once the vehicle enters at most once. */
  lemma PredBinary(inst: Instance, sol: Solution, i: int, v: int, c: int)
    requires WellFormed(inst, sol) && SingleVisit(inst, sol)
    requires IsTarget(inst.n, i) && IsVehicle(inst.w, v)
    ensures 0 <= Pred(inst, sol, i, v, c) <= 1
  {
    ActiveFacts(inst, sol, Into(i, v, c));
    ActiveMono(inst, sol, Into(i, v, c), Entering(i, v));
  }

  // ------------------------------------------------------------ routing

  /** Every task on every target is performed by exactly one leg: classify and
      verify by a vehicle flying in, the attack possibly by the self-loop. */
  lemma OnePerformer(inst: Instance, sol: Solution, j: int, k: int) returns (l: Leg)
    requires WellFormed(inst, sol) && Completeness(inst, sol)
    requires IsTarget(inst.n, j) && IsTask(k)
    ensures l.j == j && l.k == k && X(sol, l) == 1
    ensures k != Attack ==> l.i != j
    ensures forall m: Leg | m.j == j && m.k == k && X(sol, m) == 1 :: m == l
  {
    if k == Attack {
      l := UniqueIn(inst, sol, AttackOn(j), j, Attack);
    } else if k == Classify {
      l := UniqueIn(inst, sol, TaskOn(j, Classify), j, Classify);
    } else {
      l := UniqueIn(inst, sol, TaskOn(j, Verify), j, Verify);
    }
  }

  lemma UniqueIn(inst: Instance, sol: Solution, g: Leg -> bool, j: int, k: int) returns (l: Leg)
    requires WellFormed(inst, sol) && Active(inst, sol, g) == 1
    requires forall m: Leg | m.j == j && m.k == k && (k != Attack ==> m.i != j) :: g(m)
    requires forall m: Leg | g(m) :: m.j == j && m.k == k
    ensures g(l)
    ensures l.j == j && l.k == k && X(sol, l) == 1
    ensures forall m: Leg | m.j == j && m.k == k && X(sol, m) == 1 :: m == l
  {
    Binaries(inst, sol);
    l := ActiveWitness(inst, sol, g);
    forall m: Leg | m.j == j && m.k == k && X(sol, m) == 1
      ensures m == l
    {
      ActiveUnique(inst, sol, g, m, l);
    }
  }

  /** A vehicle flies into a target at most once. */
  lemma EntersOnce(inst: Instance, sol: Solution, a: Leg, b: Leg)
    requires WellFormed(inst, sol) && SingleVisit(inst, sol)
    requires a.j == b.j && a.v == b.v && a.i != a.j && b.i != b.j
    requires X(sol, a) == 1 && X(sol, b) == 1
    ensures a == b
  {
    Binaries(inst, sol);
    ActiveUnique(inst, sol, Entering(a.j, a.v), a, b);
  }

  /** A vehicle returns to the sink at most once. */
  lemma ReturnsOnce(inst: Instance, sol: Solution, a: SinkLeg, b: SinkLeg)
    requires WellFormed(inst, sol) && SinkOnce(inst, sol)
    requires a.v == b.v && Y(sol, a) == 1 && Y(sol, b) == 1
    ensures a == b
  {
    Binaries(inst, sol);
    ReturnedFacts(inst, sol, ReturnOf(a.v));
    AtMostOnePositive(Select(X2Domain(inst.n, inst.w), ReturnOf(a.v)), YOf(sol), a, b);
  }

  /** The classification and the verification of a target are flown in by
      two different vehicles, since a vehicle enters a target only once. */
  lemma ClassifierNotVerifier(inst: Instance, sol: Solution, j: int) returns (c: Leg, d: Leg)
    requires WellFormed(inst, sol) && Completeness(inst, sol) && SingleVisit(inst, sol)
    requires IsTarget(inst.n, j)
    ensures c.j == j && c.k == Classify && c.i != j && X(sol, c) == 1 && IsVehicle(inst.w, c.v)
    ensures d.j == j && d.k == Verify && d.i != j && X(sol, d) == 1 && IsVehicle(inst.w, d.v)
    ensures c.v != d.v
  {
    c := OnePerformer(inst, sol, j, Classify);
    d := OnePerformer(inst, sol, j, Verify);
    Binaries(inst, sol);
    assert IsX1Key(inst.n, inst.w, c) && IsX1Key(inst.n, inst.w, d);
    if c.v == d.v {
      EntersOnce(inst, sol, c, d);
      assert false;
    }
  }

  /** Hence a single vehicle cannot serve any target: with one vehicle and a
      target no formulation has a feasible solution. */
  lemma OneVehicleInfeasible(inst: Instance, cfg: Variant, sol: Solution)
    requires inst.n >= 1 && inst.w == 1
    ensures !Feasible(inst, cfg, sol)
  {
    if Feasible(inst, cfg, sol) {
      var c, d := ClassifierNotVerifier(inst, sol, 1);
      assert false;
    }
  }

  /** With the munition family a vehicle attacks at most once on its route. */
  lemma AttacksOnce(inst: Instance, sol: Solution, a: Leg, b: Leg)
    requires WellFormed(inst, sol) && Munition(inst, sol)
    requires a.v == b.v && a.k == Attack && b.k == Attack
    requires X(sol, a) == 1 && X(sol, b) == 1
    ensures a == b
  {
    Binaries(inst, sol);
    ActiveUnique(inst, sol, AttacksBy(a.v), a, b);
  }

  /** Every vehicle leaves its base exactly once: either straight to the sink,
      or on a single first leg to a target. */
  lemma BaseExit(inst: Instance, sol: Solution, v: int) returns (direct: bool, first: Leg)
    requires WellFormed(inst, sol) && BaseEgress(inst, sol) && IsVehicle(inst.w, v)
    ensures direct <==> Y(sol, SinkAt(inst, BaseOf(inst.n, v), v)) == 1
    ensures direct ==> forall l: Leg | l.i == BaseOf(inst.n, v) :: X(sol, l) == 0
    ensures !direct ==> first.i == BaseOf(inst.n, v) && first.v == v
                        && IsTarget(inst.n, first.j) && X(sol, first) == 1
    ensures !direct ==> forall l: Leg | l.i == BaseOf(inst.n, v) && X(sol, l) == 1 :: l == first
  {
    Binaries(inst, sol);
    var g := LaunchedBy(inst.n, v);
    ActiveFacts(inst, sol, g);
    direct := Y(sol, SinkAt(inst, BaseOf(inst.n, v), v)) == 1;
    if direct {
      forall l: Leg | l.i == BaseOf(inst.n, v)
        ensures X(sol, l) == 0
      {
        if X(sol, l) != 0 {
          assert g(l);
          ActiveNone(inst, sol, g, l);
        }
      }
      first := Leg(BaseOf(inst.n, v), 1, v, Classify);
    } else {
      first := ActiveWitness(inst, sol, g);
      forall l: Leg | l.i == BaseOf(inst.n, v) && X(sol, l) == 1
        ensures l == first
      {
        ActiveUnique(inst, sol, g, l, first);
      }
    }
  }

  /** The self-loop attack is made by the vehicle that flew in to classify. */
  lemma SelfAttackAfterClassify(inst: Instance, sol: Solution, j: int, v: int) returns (c: Leg)
    requires WellFormed(inst, sol) && SelfAttackNeedsClassify(inst, sol)
    requires X(sol, Leg(j, j, v, Attack)) == 1
    ensures c.i != j && c.j == j && c.v == v && c.k == Classify && X(sol, c) == 1
  {
    Binaries(inst, sol);
    c := ActiveWitness(inst, sol, Reach(j, v, Classify));
  }

  /** With the exclusivity family a vehicle never flies into the same target
      both to attack and to verify it. */
  lemma AttackNotVerify(inst: Instance, sol: Solution, a: Leg, b: Leg)
    requires WellFormed(inst, sol) && AttackVerifyExclusive(inst, sol)
    requires a.j == b.j && a.v == b.v && a.i != a.j && b.i != b.j
    requires a.k == Attack && b.k == Verify
    ensures X(sol, a) == 0 || X(sol, b) == 0
  {
    Binaries(inst, sol);
    if X(sol, a) == 1 && X(sol, b) == 1 {
      ActiveCounts(inst, sol, Into(a.j, a.v, Attack), a);
      ActiveCounts(inst, sol, Into(a.j, a.v, Verify), b);
    }
  }

  /** How a vehicle goes on from a target it reached. */
  datatype Exit = OnLeg(next: Leg) | SelfAttack | ToSink

  /** With the continuity family a vehicle that flew into a target to
      classify or verify goes on: to another target, to the sink, or (after
      classifying) into the self-loop attack. */
  lemma ArrivalLeaves(inst: Instance, sol: Solution, a: Leg) returns (e: Exit)
    requires WellFormed(inst, sol) && Continuity(inst, sol)
    requires a.i != a.j && (a.k == Classify || a.k == Verify) && X(sol, a) == 1
    ensures e.OnLeg? ==> e.next.i == a.j && e.next.v == a.v && e.next.j != a.j
                         && IsTarget(inst.n, e.next.j) && X(sol, e.next) == 1
    ensures e.SelfAttack? ==> a.k == Classify && X(sol, Leg(a.j, a.j, a.v, Attack)) == 1
    ensures e.ToSink? ==> Y(sol, SinkAt(inst, a.j, a.v)) == 1
  {
    Binaries(inst, sol);
    var j, v := a.j, a.v;
    ActiveCounts(inst, sol, Into(j, v, a.k), a);
    if Y(sol, SinkAt(inst, j, v)) == 1 {
      e := ToSink;
    } else if Active(inst, sol, OutOf(j, v)) > 0 {
      var l := ActiveWitness(inst, sol, OutOf(j, v));
      e := OnLeg(l);
    } else {
      e := SelfAttack;
    }
  }

  /** With the continuity family an attack ends the attacker's route: it
      neither flies on to a target nor to the sink from there. */
  lemma AttackEndsRoute(inst: Instance, sol: Solution, a: Leg)
    requires WellFormed(inst, sol) && Continuity(inst, sol)
    requires IsTarget(inst.n, a.j) && a.k == Attack && X(sol, a) == 1
    ensures Y(sol, SinkAt(inst, a.j, a.v)) == 0
    ensures forall l: Leg | l.i == a.j && l.v == a.v && l.j != a.j :: X(sol, l) == 0
  {
    Binaries(inst, sol);
    var j, v := a.j, a.v;
    ActiveCounts(inst, sol, Reach(j, v, Attack), a);
    ActiveFacts(inst, sol, OutOf(j, v));
    forall l: Leg | l.i == j && l.v == v && l.j != j
      ensures X(sol, l) == 0
    {
      ActiveNone(inst, sol, OutOf(j, v), l);
    }
  }

  /** With the continuity family a vehicle only leaves a target it entered. */
  lemma ExitNeedsEntry(inst: Instance, sol: Solution, j: int, v: int, d: Leg) returns (e: Leg)
    requires WellFormed(inst, sol) && Continuity(inst, sol)
    requires IsTarget(inst.n, j) && IsVehicle(inst.w, v)
    requires Y(sol, SinkAt(inst, j, v)) == 1 || (d.i == j && d.v == v && d.j != j && X(sol, d) == 1)
    ensures e.j == j && e.v == v && e.i != j && X(sol, e) == 1
  {
    Binaries(inst, sol);
    ActiveFacts(inst, sol, OutOf(j, v));
    if Y(sol, SinkAt(inst, j, v)) != 1 {
      ActiveCounts(inst, sol, OutOf(j, v), d);
    }
    e := ActiveWitness(inst, sol, Entering(j, v));
  }

  // ------------------------------------------------------------ timing

  /** The big-M pair with zero slack is an equation. */
  lemma BigMOn(lhs: real, rhs: real, m: real)
    requires BigMPair(lhs, rhs, 0, m)
    ensures lhs == rhs
  {
  }

  /** The big-M pair with positive slack admits everything within m of rhs. */
  lemma BigMOff(lhs: real, rhs: real, slack: int, m: real)
    requires slack >= 1 && m >= 0.0 && rhs - m <= lhs <= rhs + m
    ensures BigMPair(lhs, rhs, slack, m)
  {
    ScaleAtLeast(slack, m);
  }

  /** One instance of the target timing family. */
  lemma TimingPair(inst: Instance, sol: Solution, l: Leg, c: int)
    requires TargetTiming(inst, sol)
    requires IsTarget(inst.n, l.i) && IsTarget(inst.n, l.j) && l.i != l.j
    requires IsVehicle(inst.w, l.v) && IsTask(l.k) && (c == Classify || c == Verify)
    ensures PairTimed(inst, sol, l, c)
  {
    assert l == Leg(l.i, l.j, l.v, l.k);
    if c == Classify {
      assert PairTimed(inst, sol, Leg(l.i, l.j, l.v, l.k), Classify);
    } else {
      assert PairTimed(inst, sol, Leg(l.i, l.j, l.v, l.k), Verify);
    }
  }

  /** When a vehicle arrived at i for task c and flies on from i to j for
      task k, the timing pair is tight: task k at j completes one leg
      duration after task c at i. */
  lemma TimingPinned(inst: Instance, sol: Solution, l: Leg, a: Leg)
    requires WellFormed(inst, sol) && SingleVisit(inst, sol) && TargetTiming(inst, sol)
    requires IsTarget(inst.n, l.i) && IsTarget(inst.n, l.j) && l.i != l.j
    requires IsVehicle(inst.w, l.v) && IsTask(l.k) && X(sol, l) == 1
    requires a.j == l.i && a.i != l.i && a.v == l.v && (a.k == Classify || a.k == Verify)
    requires X(sol, a) == 1
    ensures Done(sol, l.j, l.k) == Done(sol, l.i, a.k) + Dur(inst, l)
  {
    ActiveCounts(inst, sol, Into(l.i, l.v, a.k), a);
    PredBinary(inst, sol, l.i, l.v, a.k);
    TimingPair(inst, sol, l, a.k);
    BigMOn(Done(sol, l.j, l.k), Done(sol, l.i, a.k) + Dur(inst, l), FleetM(inst));
  }

  /** Unless the leg and the arrival are both active, the pair only asks
      task k at j to lie within w*T of the predecessor's completion plus the
      leg duration: the big-M term switches the pair off. */
  lemma TimingRelaxed(inst: Instance, sol: Solution, l: Leg, c: int, t: real)
    requires WellFormed(inst, sol) && SingleVisit(inst, sol) && inst.T >= 0.0
    requires IsTarget(inst.n, l.i) && IsVehicle(inst.w, l.v)
    requires X(sol, l) == 0 || Pred(inst, sol, l.i, l.v, c) == 0
    requires Done(sol, l.i, c) + Dur(inst, l) - FleetM(inst) <= t <= Done(sol, l.i, c) + Dur(inst, l) + FleetM(inst)
    ensures BigMPair(t, Done(sol, l.i, c) + Dur(inst, l), 2 - X(sol, l) - Pred(inst, sol, l.i, l.v, c), FleetM(inst))
  {
    Binaries(inst, sol);
    PredBinary(inst, sol, l.i, l.v, c);
    assert FleetM(inst) >= 0.0 by {
      assert (inst.w as real) >= 0.0;
    }
    BigMOff(t, Done(sol, l.i, c) + Dur(inst, l), 2 - X(sol, l) - Pred(inst, sol, l.i, l.v, c), FleetM(inst));
  }

  /** In the reduced variant the self-loop attack is timed as well: it
      completes one duration after the attacker's own classification. */
  lemma SelfLoopPinned(inst: Instance, sol: Solution, j: int, v: int)
    requires WellFormed(inst, sol) && SingleVisit(inst, sol)
    requires SelfAttackNeedsClassify(inst, sol) && SelfLoopTiming(inst, sol)
    requires IsTarget(inst.n, j) && IsVehicle(inst.w, v) && X(sol, Leg(j, j, v, Attack)) == 1
    ensures Done(sol, j, Attack) == Done(sol, j, Classify) + Dur(inst, Leg(j, j, v, Attack))
  {
    var c := SelfAttackAfterClassify(inst, sol, j, v);
    ActiveCounts(inst, sol, Into(j, v, Classify), c);
    PredBinary(inst, sol, j, v, Classify);
    var l := Leg(j, j, v, Attack);
    assert PairTimed(inst, sol, l, Classify);
    BigMOn(Done(sol, j, Attack), Done(sol, j, Classify) + Dur(inst, l), FleetM(inst));
  }

  /** A first leg out of the base completes its task one duration after the
      vehicle's launch. */
  lemma LaunchPinned(inst: Instance, cfg: Variant, sol: Solution, l: Leg)
    requires WellFormed(inst, sol) && LaunchTiming(inst, cfg, sol)
    requires IsVehicle(inst.w, l.v) && l.i == BaseOf(inst.n, l.v) && X(sol, l) == 1
    ensures Done(sol, l.j, l.k) == Launch(sol, l.v) + Dur(inst, l)
  {
    assert l in sol.x1;
    assert IsTarget(inst.n, l.j) && IsTask(l.k);
    assert l == Leg(BaseOf(inst.n, l.v), l.j, l.v, l.k);
    assert LaunchTimed(inst, cfg, sol, l.j, l.v, l.k);
    BigMOn(Done(sol, l.j, l.k), Launch(sol, l.v) + Dur(inst, l), LaunchM(inst, cfg));
  }

  /** With the leg inactive the launch pair only asks the task to complete
      within the variant's multiplier of launch plus duration: w·T in the
      class formulation, T in the script and in the reduced variant. */
  lemma LaunchRelaxed(inst: Instance, cfg: Variant, sol: Solution, l: Leg, t: real)
    requires WellFormed(inst, sol) && inst.T >= 0.0 && X(sol, l) == 0
    requires Launch(sol, l.v) + Dur(inst, l) - LaunchM(inst, cfg) <= t <= Launch(sol, l.v) + Dur(inst, l) + LaunchM(inst, cfg)
    ensures BigMPair(t, Launch(sol, l.v) + Dur(inst, l), 1 - X(sol, l), LaunchM(inst, cfg))
    ensures cfg == ClassModel ==> LaunchM(inst, cfg) == (inst.w as real) * inst.T
    ensures cfg == ScriptModel || cfg == TobiasModel ==> LaunchM(inst, cfg) == inst.T
  {
    assert LaunchM(inst, cfg) >= 0.0 by {
      assert (inst.w as real) * inst.T >= 0.0;
    }
    BigMOff(t, Launch(sol, l.v) + Dur(inst, l), 1 - X(sol, l), LaunchM(inst, cfg));
  }

  /** The inactive launch pair still binds: the task completes within the
      variant's multiplier of the vehicle's launch plus the leg's duration. */
  lemma LaunchBounded(inst: Instance, cfg: Variant, sol: Solution, l: Leg)
    requires LaunchTiming(inst, cfg, sol)
    requires IsVehicle(inst.w, l.v) && l.i == BaseOf(inst.n, l.v) && IsTarget(inst.n, l.j) && IsTask(l.k)
    requires X(sol, l) == 0
    ensures Launch(sol, l.v) + Dur(inst, l) - LaunchM(inst, cfg) <= Done(sol, l.j, l.k)
    ensures Done(sol, l.j, l.k) <= Launch(sol, l.v) + Dur(inst, l) + LaunchM(inst, cfg)
  {
    assert l == Leg(BaseOf(inst.n, l.v), l.j, l.v, l.k);
    assert LaunchTimed(inst, cfg, sol, l.j, l.v, l.k);
    ScaleIsProduct(1, LaunchM(inst, cfg));
  }

  /** Along a route the completion times grow: if a vehicle classified or
      verified i and flies on to j, task k at j completes no earlier than
      the task at i (durations are non-negative). */
  lemma RouteTimesGrow(inst: Instance, sol: Solution, l: Leg, a: Leg)
    requires WellFormed(inst, sol) && SingleVisit(inst, sol) && TargetTiming(inst, sol)
    requires IsTarget(inst.n, l.i) && IsTarget(inst.n, l.j) && l.i != l.j
    requires IsVehicle(inst.w, l.v) && IsTask(l.k) && X(sol, l) == 1
    requires a.j == l.i && a.i != l.i && a.v == l.v && (a.k == Classify || a.k == Verify)
    requires X(sol, a) == 1 && Dur(inst, l) >= 0.0
    ensures Done(sol, l.j, l.k) >= Done(sol, a.j, a.k)
  {
    TimingPinned(inst, sol, l, a);
  }
}
