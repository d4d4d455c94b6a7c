/** Building a formulation: the variables are created for the generated keys,
    then every constraint row and the objective read durations from the time
    dictionary, and the first duration that is absent stops the build. */
module Build {
  import opened Nodes
  import opened Seqs
  import opened Universe
  import opened Results
  import opened Formulation
  import Objective
  import TimeData

  datatype BuildError = MissingTime(key: Leg)

  /** The variable dictionaries of a built model, as their key sequences. */
  datatype Model = Model(
    inst: Instance,
    cfg: Variant,
    goal: Objective.Goal,
    x1: seq<Leg>,
    x2: seq<SinkLeg>,
    t1: seq<Slot>,
    t2: seq<int>)

  /** The `x1` keys whose duration the build reads: every flown leg (timing,
      launch and endurance rows), the self-loops when the variant times them,
      and all of them when the objective is the total flight time. */
  function ReadsTime(cfg: Variant, goal: Objective.Goal): Leg -> bool {
    (l: Leg) => l.i != l.j || cfg.selfLoopTiming || goal == Objective.MinFlightTime
  }

  /** The first key of `keys` that `p` selects and `time` lacks. */
  function FirstMissing(keys: seq<Leg>, time: map<Leg, real>, p: Leg -> bool): (r: Option<Leg>)
    ensures r.None? <==> forall l | l in keys && p(l) :: l in time
    ensures r.Some? ==> r.value in keys && p(r.value) && r.value !in time
  {
    if |keys| == 0 then None
    else if p(keys[0]) && keys[0] !in time then Some(keys[0])
    else FirstMissing(keys[1..], time, p)
  }

  /** The construction: it fails exactly when a duration it reads is absent,
      and otherwise holds w·n·(3n+1) routing, (n+1)·w return, 3n completion
      and w launch variables, with every duration the rows read. */
  function BuildModel(inst: Instance, cfg: Variant, goal: Objective.Goal): (r: Result<Model, BuildError>)
    ensures r.Success? <==> forall l | IsX1Key(inst.n, inst.w, l) && ReadsTime(cfg, goal)(l) :: l in inst.time
    ensures r.Failure? ==> IsX1Key(inst.n, inst.w, r.error.key) && ReadsTime(cfg, goal)(r.error.key)
                           && r.error.key !in inst.time
    ensures r.Success? ==> TimesCovered(inst, cfg)
    ensures r.Success? ==> && |r.value.x1| == inst.w * inst.n * (3 * inst.n + 1)
                           && |r.value.x2| == (inst.n + 1) * inst.w
                           && |r.value.t1| == 3 * inst.n
                           && |r.value.t2| == inst.w
    ensures r.Success? ==> forall l: Leg :: l in r.value.x1 <==> IsX1Key(inst.n, inst.w, l)
  {
    var n, w := inst.n, inst.w;
    match FirstMissing(X1Keys(n, w), inst.time, ReadsTime(cfg, goal))
    case Some(l) => Failure(MissingTime(l))
    case None =>
      ReadsCover(inst, cfg, goal);
      X1Count(n, w);
      X2Count(n, w);
      Success(Model(inst, cfg, goal, X1Keys(n, w), X2Keys(n, w), T1Keys(n), T2Keys(w)))
  }

  /** Whatever the objective, the keys the build reads include every key
      the constraint rows read. */
  lemma ReadsCover(inst: Instance, cfg: Variant, goal: Objective.Goal)
    requires forall l | IsX1Key(inst.n, inst.w, l) && ReadsTime(cfg, goal)(l) :: l in inst.time
    ensures TimesCovered(inst, cfg)
  {
  }

  /** Without a dictionary the class formulations draw their own durations,
      and those cover every key: the build always succeeds. */
  lemma RandomDataBuilds(n: nat, w: nat, draw: Leg -> int, T: real, delay: real,
                         cfg: Variant, goal: Objective.Goal)
    requires forall l | TimeData.InBox(n, w, l) :: 1 <= draw(l) <= 30
    ensures BuildModel(Instance(n, w, T, delay, TimeData.SetupData(n, w, draw)), cfg, goal).Success?
  {
    var time := TimeData.SetupData(n, w, draw);
    forall l: Leg | IsX1Key(n, w, l)
      ensures l in time
    {
      assert TimeData.InBox(n, w, l);
    }
  }

  /** A dictionary from the location helper covers every key too, once the
      targets are numbered first and the bases after them. */
  lemma DictionaryBuilds(starts: seq<TimeData.Location>, targets: seq<TimeData.Location>, speed: real,
                         dist: (TimeData.Location, TimeData.Location) -> real, T: real, delay: real,
                         cfg: Variant, goal: Objective.Goal)
    requires TimeData.CreateTimeDictionary(starts, targets, speed, dist).Success?
    ensures BuildModel(Instance(|targets|, |starts|, T, delay,
                                TimeData.CreateTimeDictionary(starts, targets, speed, dist).value), cfg, goal).Success?
  {
    var n, w := |targets|, |starts|;
    var time := TimeData.CreateTimeDictionary(starts, targets, speed, dist).value;
    forall l: Leg | IsX1Key(n, w, l)
      ensures l in time
    {
      assert TimeData.IsDictKey(n + w, w, l);
    }
  }

  /** A dictionary holding only the flown legs builds every variant that does
      not time self-loops, unless the objective is the total flight time. */
  lemma OffDiagonalDataBuilds(inst: Instance, cfg: Variant, goal: Objective.Goal)
    requires forall l | IsX1Key(inst.n, inst.w, l) :: l in inst.time <==> l.i != l.j
    ensures BuildModel(inst, cfg, goal).Success? <==>
            (!cfg.selfLoopTiming && goal != Objective.MinFlightTime) || inst.n == 0 || inst.w == 0
  {
    var n, w := inst.n, inst.w;
    if n >= 1 && w >= 1 && (cfg.selfLoopTiming || goal == Objective.MinFlightTime) {
      var l := Leg(1, 1, 1, Attack);
      assert IsX1Key(n, w, l) && ReadsTime(cfg, goal)(l) && l !in inst.time;
    }
  }
}
