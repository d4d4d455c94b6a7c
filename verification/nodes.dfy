/** The index domain of the strike problem: node ids, vehicles, tasks, and the
    tuple keys under which decision variables and durations are stored. */
module Nodes {

  /** Task codes used as the fourth component of a leg key. */
  const Classify := 1
  const Attack := 2
  const Verify := 3

  /** Key `(i, j, v, k)` of a routing variable `x1` and of a duration `time`:
      vehicle `v` flies from node `i` to node `j` and performs task `k` there. */
  datatype Leg = Leg(i: int, j: int, v: int, k: int)

  /** Key `(i, sink, v)` of a return variable `x2`. */
  datatype SinkLeg = SinkLeg(i: int, s: int, v: int)

  /** Key `(j, k)` of a completion time `t1`. */
  datatype Slot = Slot(j: int, k: int)

  /** Targets are numbered 1..n. */
  predicate IsTarget(n: nat, i: int) {
    1 <= i <= n
  }

  /** Bases are numbered n+1..n+w, one per vehicle. */
  predicate IsBase(n: nat, w: nat, i: int) {
    n < i <= n + w
  }

  /** Targets and bases together: the origins a leg may start from. */
  predicate IsNode(n: nat, w: nat, i: int) {
    1 <= i <= n + w
  }

  predicate IsVehicle(w: nat, v: int) {
    1 <= v <= w
  }

  predicate IsTask(k: int) {
    Classify <= k <= Verify
  }

  /** The single sink every returning vehicle flies to. */
  function Sink(n: nat, w: nat): int {
    n + w + 1
  }

  /** The vehicle launched from base node `i`. */
  function Owner(n: nat, i: int): int {
    i - n
  }

  /** The base node of vehicle `v`. */
  function BaseOf(n: nat, v: int): int {
    n + v
  }

  /** The three ranges partition 1..n+w+1, and each vehicle owns exactly one
      base. */
  lemma Partition(n: nat, w: nat, i: int)
    requires 1 <= i <= Sink(n, w)
    ensures IsTarget(n, i) || IsBase(n, w, i) || i == Sink(n, w)
    ensures !(IsTarget(n, i) && IsBase(n, w, i))
    ensures i == Sink(n, w) ==> !IsNode(n, w, i)
    ensures IsBase(n, w, i) <==> IsVehicle(w, Owner(n, i)) && BaseOf(n, Owner(n, i)) == i
  {
  }
}

/** Failure-compatible outcomes of the construction steps. */
module Results {

  datatype Option<+T> = None | Some(value: T)

  datatype Result<+R, +E> = Success(value: R) | Failure(error: E)
}
