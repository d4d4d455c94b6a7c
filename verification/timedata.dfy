/** Where the durations `time[i, j, v, k]` come from: the random generator of
    the class formulations, and the helper that derives them from locations,
    a distance function and the vehicles' speed. */
module TimeData {
  import opened Nodes
  import opened Universe
  import opened Results
  import Formulation

  // ------------------------------------------------------------ the grid

  /** `(i, j, v, k)` for i, j in 1..N, every vehicle and task: the loop nest
      both generators run, before either filters it. */
  predicate InGrid(N: int, w: nat, l: Leg) {
    1 <= l.i <= N && 1 <= l.j <= N && IsVehicle(w, l.v) && IsTask(l.k)
  }

  function GridRow(N: int, w: nat, i: int, j0: int): (r: seq<Leg>)
    requires j0 >= 1
    ensures forall l: Leg | l in r :: l.i == i && j0 <= l.j <= N && IsVehicle(w, l.v) && IsTask(l.k)
    ensures forall l: Leg | l.i == i && j0 <= l.j <= N && IsVehicle(w, l.v) && IsTask(l.k) :: l in r
    decreases N - j0
  {
    if j0 > N then [] else VehicleLegs(i, j0, 1, w) + GridRow(N, w, i, j0 + 1)
  }

  function Grid(N: int, w: nat, i0: int): (r: seq<Leg>)
    requires i0 >= 1
    ensures forall l: Leg | l in r :: i0 <= l.i && InGrid(N, w, l)
    ensures forall l: Leg | i0 <= l.i && InGrid(N, w, l) :: l in r
    decreases N - i0
  {
    if i0 > N then [] else GridRow(N, w, i0, 1) + Grid(N, w, i0 + 1)
  }

  // ------------------------------------------------------------ random data

  /** The keys the random generator fills: every origin node, every target. */
  predicate InBox(n: nat, w: nat, l: Leg) {
    IsNode(n, w, l.i) && IsTarget(n, l.j) && IsVehicle(w, l.v) && IsTask(l.k)
  }

  /** The random generator; the draw of `randint(1, 30)` for each key is a
      parameter. */
  function SetupData(n: nat, w: nat, draw: Leg -> int): (time: map<Leg, real>)
    requires forall l | InBox(n, w, l) :: 1 <= draw(l) <= 30
    ensures forall l: Leg :: l in time <==> InBox(n, w, l)
    ensures forall l | l in time :: time[l] == draw(l) as real
  {
    var keys := Grid(n + w, w, 1);
    map l | l in keys && l.j <= n :: draw(l) as real
  }

  /** Random data has a duration for every key any variant reads, and every
      duration is a whole number of minutes between 1 and 30. */
  lemma RandomDataCovers(n: nat, w: nat, draw: Leg -> int, T: real, delay: real, cfg: Formulation.Variant)
    requires forall l | InBox(n, w, l) :: 1 <= draw(l) <= 30
    ensures Formulation.TimesCovered(Formulation.Instance(n, w, T, delay, SetupData(n, w, draw)), cfg)
    ensures forall l | l in SetupData(n, w, draw) :: 1.0 <= SetupData(n, w, draw)[l] <= 30.0
  {
    var time := SetupData(n, w, draw);
    forall l: Leg | IsX1Key(n, w, l)
      ensures l in time
    {
      assert InBox(n, w, l);
    }
  }

  // ------------------------------------------------------------ locations

  datatype Location = Location(lat: real, lon: real)

  /** Duration of each task in minutes. */
  function TaskMinutes(k: int): real
    requires IsTask(k)
  {
    if k == Attack then 2.0 else 1.0
  }

  /** Minutes to cover `distance` kilometres at `speed` km/h. */
  function TravelTime(distance: real, speed: real): (r: real)
    requires speed != 0.0
    ensures r * speed == 60.0 * distance
  {
    distance / speed * 60.0
  }

  /** Node i is the i-th location of the targets followed by the bases. */
  function LocationOf(targets: seq<Location>, starts: seq<Location>, i: int): Location
    requires 1 <= i <= |targets| + |starts|
  {
    (targets + starts)[i - 1]
  }

  datatype TimeError = ZeroSpeed

  /** The keys the helper creates: every ordered pair of distinct nodes with
      every vehicle and task, plus the attack self-loop at every node. */
  predicate IsDictKey(N: int, w: nat, l: Leg) {
    InGrid(N, w, l) && (l.i != l.j || l.k == Attack)
  }

  /** The helper's loop: the first key with i != j divides by the speed, so a
      zero speed fails as soon as that key exists. The distance between two
      locations is a parameter. */
  function CreateTimeDictionary(starts: seq<Location>, targets: seq<Location>, speed: real,
                                dist: (Location, Location) -> real): (r: Result<map<Leg, real>, TimeError>)
    ensures r.Failure? <==> speed == 0.0 && |starts| >= 1 && |targets| + |starts| >= 2
    ensures r.Success? ==> forall l: Leg :: l in r.value <==> IsDictKey(|targets| + |starts|, |starts|, l)
    ensures r.Success? ==> forall l | l in r.value && l.i == l.j :: r.value[l] == TaskMinutes(Attack)
    ensures r.Success? ==> forall l | l in r.value && l.i != l.j && IsDictKey(|targets| + |starts|, |starts|, l) ::
      r.value[l] == TravelTime(dist(LocationOf(targets, starts, l.i), LocationOf(targets, starts, l.j)), speed)
                    + TaskMinutes(l.k)
  {
    var N, w := |targets| + |starts|, |starts|;
    if speed == 0.0 && w >= 1 && N >= 2 then
      Failure(ZeroSpeed)
    else
      Success(Durations(starts, targets, speed, dist))
  }

  function Durations(starts: seq<Location>, targets: seq<Location>, speed: real,
                     dist: (Location, Location) -> real): (time: map<Leg, real>)
    requires speed != 0.0 || |starts| == 0 || |targets| + |starts| < 2
    ensures forall l: Leg :: l in time <==> IsDictKey(|targets| + |starts|, |starts|, l)
    ensures forall l | l in time && l.i == l.j :: time[l] == TaskMinutes(Attack)
    ensures forall l | l in time && l.i != l.j && IsDictKey(|targets| + |starts|, |starts|, l) ::
      time[l] == TravelTime(dist(LocationOf(targets, starts, l.i), LocationOf(targets, starts, l.j)), speed)
                 + TaskMinutes(l.k)
  {
    var N, w := |targets| + |starts|, |starts|;
    var keys := Grid(N, w, 1);
    map l | l in keys && (l.i != l.j || l.k == Attack) ::
      if l.i == l.j then TaskMinutes(Attack)
      else TravelTime(dist(LocationOf(targets, starts, l.i), LocationOf(targets, starts, l.j)), speed)
           + TaskMinutes(l.k)
  }

  /** Off the diagonal a duration is the task's minutes plus the travel
      minutes, distance over speed times sixty. */
  lemma DictionaryTravel(starts: seq<Location>, targets: seq<Location>, speed: real,
                         dist: (Location, Location) -> real, l: Leg)
    requires CreateTimeDictionary(starts, targets, speed, dist).Success?
    requires l in CreateTimeDictionary(starts, targets, speed, dist).value && l.i != l.j
    ensures speed != 0.0
    ensures (CreateTimeDictionary(starts, targets, speed, dist).value[l] - TaskMinutes(l.k)) * speed
         == 60.0 * dist(LocationOf(targets, starts, l.i), LocationOf(targets, starts, l.j))
  {
    var n, w := |targets|, |starts|;
    var time := CreateTimeDictionary(starts, targets, speed, dist).value;
    assert IsDictKey(n + w, w, l);
    assert speed != 0.0;
    var d := dist(LocationOf(targets, starts, l.i), LocationOf(targets, starts, l.j));
    var travel := TravelTime(d, speed);
    var extra := time[l] - TaskMinutes(l.k);
    assert extra == travel;
    assert extra * speed == 60.0 * d;
  }

  /** The helper's dictionary has a duration for every key any variant reads
      (targets come first, so node numbers agree with the formulation's). */
  lemma DictionaryCovers(starts: seq<Location>, targets: seq<Location>, speed: real,
                         dist: (Location, Location) -> real, T: real, delay: real, cfg: Formulation.Variant)
    requires CreateTimeDictionary(starts, targets, speed, dist).Success?
    ensures Formulation.TimesCovered(
      Formulation.Instance(|targets|, |starts|, T, delay, CreateTimeDictionary(starts, targets, speed, dist).value), cfg)
  {
    var n, w := |targets|, |starts|;
    var time := CreateTimeDictionary(starts, targets, speed, dist).value;
    forall l: Leg | IsX1Key(n, w, l)
      ensures l in time
    {
      assert IsDictKey(n + w, w, l);
    }
  }

  /** Durations do not depend on the vehicle flying the leg. */
  lemma DictionaryVehicleBlind(starts: seq<Location>, targets: seq<Location>, speed: real,
                               dist: (Location, Location) -> real, a: Leg, b: Leg)
    requires CreateTimeDictionary(starts, targets, speed, dist).Success?
    requires a in CreateTimeDictionary(starts, targets, speed, dist).value
    requires b in CreateTimeDictionary(starts, targets, speed, dist).value
    requires a.i == b.i && a.j == b.j && a.k == b.k
    ensures CreateTimeDictionary(starts, targets, speed, dist).value[a]
         == CreateTimeDictionary(starts, targets, speed, dist).value[b]
  {
  }

  /** With a positive speed and non-negative distances every duration is at
      least the task's own minutes, so at least one minute. */
  lemma DictionaryPositive(starts: seq<Location>, targets: seq<Location>, speed: real,
                           dist: (Location, Location) -> real, l: Leg)
    requires speed > 0.0
    requires forall p: Location, q: Location :: dist(p, q) >= 0.0
    requires l in CreateTimeDictionary(starts, targets, speed, dist).value
    ensures CreateTimeDictionary(starts, targets, speed, dist).value[l] >= TaskMinutes(l.k) >= 1.0
  {
    var n, w := |targets|, |starts|;
    assert IsDictKey(n + w, w, l);
    if l.i != l.j {
      var d := dist(LocationOf(targets, starts, l.i), LocationOf(targets, starts, l.j));
      assert d / speed * 60.0 >= 0.0;
    }
  }
}
