/** The sparse variable universe: which `x1`, `x2`, `t1` and `t2` keys the
    formulation creates, generated in the order of the source's nested loops,
    together with a reference definition of each key set and its size. */
module Universe {
  import opened Nodes
  import opened Seqs

  /** Reference definition of an `x1` key: a self-loop exists only for the
      attack, a target-to-target leg for every vehicle and task, and a base
      launches only its own vehicle. */
  predicate IsX1Key(n: nat, w: nat, l: Leg) {
    && IsTarget(n, l.j) && IsVehicle(w, l.v) && IsTask(l.k)
    && (|| (l.i == l.j && l.k == Attack)
        || (IsTarget(n, l.i) && l.i != l.j)
        || (IsBase(n, w, l.i) && l.v == Owner(n, l.i)))
  }

  /** Reference definition of an `x2` key: every leg to the sink ends at
      n+w+1; a target may return any vehicle, a base only its own. */
  predicate IsX2Key(n: nat, w: nat, r: SinkLeg) {
    && r.s == Sink(n, w) && IsVehicle(w, r.v)
    && (IsTarget(n, r.i) || (IsBase(n, w, r.i) && r.v == Owner(n, r.i)))
  }

  predicate IsT1Key(n: nat, s: Slot) {
    IsTarget(n, s.j) && IsTask(s.k)
  }

  // ---------------------------------------------------------------- x1

  /** `x1[j, j, v, 2]` for v = v0..w. */
  function SelfLoops(j: int, v0: int, w: nat): (r: seq<Leg>)
    ensures forall l: Leg | l in r :: l.i == j && l.j == j && v0 <= l.v <= w && l.k == Attack
    ensures forall l: Leg | l.i == j && l.j == j && v0 <= l.v <= w && l.k == Attack :: l in r
    ensures Distinct(r)
    ensures |r| == if v0 <= w then w - v0 + 1 else 0
    decreases w - v0
  {
    if v0 > w then []
    else
      var rest := SelfLoops(j, v0 + 1, w);
      DistinctAppend([Leg(j, j, v0, Attack)], rest);
      [Leg(j, j, v0, Attack)] + rest
  }

  /** The three task legs `x1[i, j, v, 1..3]` of one vehicle. */
  function TaskLegs(i: int, j: int, v: int): (r: seq<Leg>)
    ensures forall l: Leg | l in r :: l.i == i && l.j == j && l.v == v && IsTask(l.k)
    ensures forall l: Leg | l.i == i && l.j == j && l.v == v && IsTask(l.k) :: l in r
    ensures Distinct(r) && |r| == 3
  {
    [Leg(i, j, v, Classify), Leg(i, j, v, Attack), Leg(i, j, v, Verify)]
  }

  /** `x1[i, j, v, k]` for v = v0..w and every task. */
  function VehicleLegs(i: int, j: int, v0: int, w: nat): (r: seq<Leg>)
    ensures forall l: Leg | l in r :: l.i == i && l.j == j && v0 <= l.v <= w && IsTask(l.k)
    ensures forall l: Leg | l.i == i && l.j == j && v0 <= l.v <= w && IsTask(l.k) :: l in r
    ensures Distinct(r)
    ensures |r| == if v0 <= w then 3 * (w - v0 + 1) else 0
    decreases w - v0
  {
    if v0 > w then []
    else
      var rest := VehicleLegs(i, j, v0 + 1, w);
      DistinctAppend(TaskLegs(i, j, v0), rest);
      TaskLegs(i, j, v0) + rest
  }

  /** The keys created for one origin/destination pair. */
  function Block(n: nat, w: nat, i: int, j: int): (r: seq<Leg>)
    requires IsNode(n, w, i) && IsTarget(n, j)
    ensures forall l: Leg | l in r :: l.i == i && l.j == j && IsX1Key(n, w, l)
    ensures forall l: Leg | l.i == i && l.j == j && IsX1Key(n, w, l) :: l in r
    ensures Distinct(r)
    ensures |r| == if i == j then w else if IsTarget(n, i) then 3 * w else 3
  {
    if i == j then SelfLoops(j, 1, w)
    else if IsTarget(n, i) then VehicleLegs(i, j, 1, w)
    else TaskLegs(i, j, Owner(n, i))
  }

  /** The keys from origin `i` to the targets j0..n. */
  function Row(n: nat, w: nat, i: int, j0: int): (r: seq<Leg>)
    requires IsNode(n, w, i) && 1 <= j0
    ensures forall l: Leg | l in r :: l.i == i && j0 <= l.j && IsX1Key(n, w, l)
    ensures forall l: Leg | l.i == i && j0 <= l.j && IsX1Key(n, w, l) :: l in r
    ensures Distinct(r)
    ensures |r| == RowSize(n, w, i, j0)
    decreases n - j0
  {
    if j0 > n then []
    else
      var b := Block(n, w, i, j0);
      var rest := Row(n, w, i, j0 + 1);
      DistinctAppend(b, rest);
      b + rest
  }

  /** The keys from the origins i0..n+w. */
  function X1From(n: nat, w: nat, i0: int): (r: seq<Leg>)
    requires 1 <= i0
    ensures forall l: Leg | l in r :: i0 <= l.i && IsX1Key(n, w, l)
    ensures forall l: Leg | i0 <= l.i && IsX1Key(n, w, l) :: l in r
    ensures Distinct(r)
    ensures |r| == X1FromSize(n, w, i0)
    decreases n + w - i0
  {
    if i0 > n + w then []
    else
      var row := Row(n, w, i0, 1);
      var rest := X1From(n, w, i0 + 1);
      DistinctAppend(row, rest);
      row + rest
  }

  /** The `x1` universe, in the order the source's loops create it; its
      members are exactly the keys of the reference definition, each once. */
  function X1Keys(n: nat, w: nat): (r: seq<Leg>)
    ensures forall l: Leg | l in r :: IsX1Key(n, w, l)
    ensures forall l: Leg | IsX1Key(n, w, l) :: l in r
    ensures Distinct(r)
  {
    X1From(n, w, 1)
  }
  /** The index set a `quicksum` over `x1` ranges over: every key once, in
      no particular order (the sums are order-free). */
  ghost function X1Domain(n: nat, w: nat): (r: seq<Leg>)
    ensures forall l: Leg :: l in r <==> IsX1Key(n, w, l)
    ensures Distinct(r)
  {
    var keys := X1Keys(n, w);
    assert forall l: Leg :: l in keys <==> IsX1Key(n, w, l);
    var r :| (forall l: Leg :: l in r <==> IsX1Key(n, w, l)) && Distinct(r);
    r
  }


  /** Number of keys for one origin/destination pair. */
  function BlockSize(n: nat, w: nat, i: int, j: int): int {
    if i == j then w else if IsTarget(n, i) then 3 * w else 3
  }

  /** Number of keys in the row of origin `i` from target j0 on, block by
      block. */
  function RowSize(n: nat, w: nat, i: int, j0: int): int
    decreases n - j0
  {
    if j0 > n then 0 else BlockSize(n, w, i, j0) + RowSize(n, w, i, j0 + 1)
  }

  /** The same number in closed form. */
  function RowClosed(n: nat, w: nat, i: int, j0: int): int {
    if IsTarget(n, i) then 3 * w * (n + 1 - j0) - (if j0 <= i then 2 * w else 0)
    else 3 * (n + 1 - j0)
  }

  lemma MulSucc(a: int, b: int)
    ensures a * (b + 1) == a * b + a
  {
  }

  lemma {:induction false} RowSizeClosed(n: nat, w: nat, i: int, j0: int)
    requires IsNode(n, w, i) && 1 <= j0 <= n + 1
    ensures RowSize(n, w, i, j0) == RowClosed(n, w, i, j0)
    decreases n - j0
  {
    if j0 <= n {
      RowSizeClosed(n, w, i, j0 + 1);
      MulSucc(3 * w, n - j0);
      MulSucc(3, n - j0);
    }
  }

  /** The same number in closed form. */
  function X1FromClosed(n: nat, w: nat, i0: int): int {
    if i0 <= n then (n + 1 - i0) * (3 * n * w - 2 * w) + 3 * n * w
    else (n + w + 1 - i0) * (3 * n)
  }

  /** Number of keys from the origins i0..n+w, row by row. */
  function X1FromSize(n: nat, w: nat, i0: int): int
    decreases n + w - i0
  {
    if i0 > n + w then 0 else RowSize(n, w, i0, 1) + X1FromSize(n, w, i0 + 1)
  }

  lemma {:induction false} X1FromSizeClosed(n: nat, w: nat, i0: int)
    requires 1 <= i0 <= n + w + 1
    ensures X1FromSize(n, w, i0) == X1FromClosed(n, w, i0)
    decreases n + w - i0
  {
    if i0 <= n + w {
      X1FromSizeClosed(n, w, i0 + 1);
      RowSizeClosed(n, w, i0, 1);
      X1SizeStep(n, w, i0);
    }
  }

  lemma X1SizeStep(n: nat, w: nat, i0: int)
    requires 1 <= i0 <= n + w
    ensures X1FromClosed(n, w, i0) == RowClosed(n, w, i0, 1) + X1FromClosed(n, w, i0 + 1)
  {
    var rest := X1FromClosed(n, w, i0 + 1);
    var row := RowClosed(n, w, i0, 1);
    if i0 <= n {
      var a := 3 * n * w - 2 * w;
      assert row == a by {
        MulSucc(3 * w, n - 1);
      }
      assert rest == (n - i0) * a + 3 * n * w by {
        if i0 == n {
          assert rest == w * (3 * n);
        }
      }
      MulSucc(a, n - i0);
    } else {
      assert row == 3 * n;
      MulSucc(3 * n, n + w - i0);
    }
  }

  lemma X1Closed(n: nat, w: nat)
    ensures X1FromClosed(n, w, 1) == w * n * (3 * n + 1)
  {
    if n >= 1 {
      var a := 3 * n * w - 2 * w;
      assert X1FromClosed(n, w, 1) == n * a + 3 * n * w;
      assert n * a == n * (3 * n * w) - n * (2 * w);
      assert w * n * (3 * n + 1) == n * (3 * n * w) + n * w;
    }
  }

  /** The `x1` dictionary holds w·n·(3n+1) variables. */
  lemma X1Count(n: nat, w: nat)
    ensures |X1Keys(n, w)| == w * n * (3 * n + 1)
    ensures |set l | l in X1Keys(n, w)| == w * n * (3 * n + 1)
  {
    X1FromSizeClosed(n, w, 1);
    X1Closed(n, w);
    DistinctCard(X1Keys(n, w));
  }

  // ---------------------------------------------------------------- x2

  /** `x2[i, sink, v]` for v = v0..w. */
  function SinkLegs(i: int, sink: int, v0: int, w: nat): (r: seq<SinkLeg>)
    ensures forall s: SinkLeg | s in r :: s.i == i && s.s == sink && v0 <= s.v <= w
    ensures forall s: SinkLeg | s.i == i && s.s == sink && v0 <= s.v <= w :: s in r
    ensures Distinct(r)
    ensures |r| == if v0 <= w then w - v0 + 1 else 0
    decreases w - v0
  {
    if v0 > w then []
    else
      var rest := SinkLegs(i, sink, v0 + 1, w);
      DistinctAppend([SinkLeg(i, sink, v0)], rest);
      [SinkLeg(i, sink, v0)] + rest
  }

  /** The return keys of the origins i0..n+w. */
  function X2From(n: nat, w: nat, i0: int): (r: seq<SinkLeg>)
    requires 1 <= i0
    ensures forall s: SinkLeg | s in r :: i0 <= s.i && IsX2Key(n, w, s)
    ensures forall s: SinkLeg | i0 <= s.i && IsX2Key(n, w, s) :: s in r
    ensures Distinct(r)
    ensures |r| == if i0 <= n then (n + 1 - i0) * w + w else if i0 <= n + w then n + w + 1 - i0 else 0
    decreases n + w - i0
  {
    if i0 > n + w then []
    else
      var here := if IsTarget(n, i0) then SinkLegs(i0, Sink(n, w), 1, w)
                  else [SinkLeg(i0, Sink(n, w), Owner(n, i0))];
      var rest := X2From(n, w, i0 + 1);
      DistinctAppend(here, rest);
      assert i0 <= n ==> (n + 1 - i0) * w == (n - i0) * w + w;
      here + rest
  }

  /** The `x2` universe: every key points to the sink. */
  function X2Keys(n: nat, w: nat): (r: seq<SinkLeg>)
    ensures forall s: SinkLeg | s in r :: IsX2Key(n, w, s)
    ensures forall s: SinkLeg | IsX2Key(n, w, s) :: s in r
    ensures Distinct(r)
  {
    X2From(n, w, 1)
  }
  /** The index set a `quicksum` over `x2` ranges over. */
  ghost function X2Domain(n: nat, w: nat): (r: seq<SinkLeg>)
    ensures forall s: SinkLeg :: s in r <==> IsX2Key(n, w, s)
    ensures Distinct(r)
  {
    var keys := X2Keys(n, w);
    assert forall s: SinkLeg :: s in keys <==> IsX2Key(n, w, s);
    var r :| (forall s: SinkLeg :: s in r <==> IsX2Key(n, w, s)) && Distinct(r);
    r
  }


  /** The `x2` dictionary holds (n+1)·w variables. */
  lemma X2Count(n: nat, w: nat)
    ensures |X2Keys(n, w)| == (n + 1) * w
    ensures |set s | s in X2Keys(n, w)| == (n + 1) * w
  {
    if n == 0 {
      assert |X2From(n, w, 1)| == w;
    }
    DistinctCard(X2Keys(n, w));
  }

  // ---------------------------------------------------------------- t1, t2

  /** `t1[j, k]` for j = j0..n and every task. */
  function T1From(n: nat, j0: int): (r: seq<Slot>)
    requires 1 <= j0
    ensures forall s: Slot | s in r :: j0 <= s.j && IsT1Key(n, s)
    ensures forall s: Slot | j0 <= s.j && IsT1Key(n, s) :: s in r
    ensures Distinct(r)
    ensures |r| == if j0 <= n then 3 * (n + 1 - j0) else 0
    decreases n - j0
  {
    if j0 > n then []
    else
      var here := [Slot(j0, Classify), Slot(j0, Attack), Slot(j0, Verify)];
      var rest := T1From(n, j0 + 1);
      DistinctAppend(here, rest);
      here + rest
  }

  function T1Keys(n: nat): (r: seq<Slot>)
    ensures forall s: Slot | s in r :: IsT1Key(n, s)
    ensures forall s: Slot | IsT1Key(n, s) :: s in r
    ensures Distinct(r) && |r| == 3 * n
  {
    T1From(n, 1)
  }
  /** The index set a `quicksum` over `t1` ranges over. */
  ghost function T1Domain(n: nat): (r: seq<Slot>)
    ensures forall s: Slot :: s in r <==> IsT1Key(n, s)
    ensures Distinct(r)
  {
    var keys := T1Keys(n);
    assert forall s: Slot :: s in keys <==> IsT1Key(n, s);
    var r :| (forall s: Slot :: s in r <==> IsT1Key(n, s)) && Distinct(r);
    r
  }


  /** `t2[v]` for v = v0..w. */
  function T2From(w: nat, v0: int): (r: seq<int>)
    ensures forall v | v in r :: v0 <= v <= w
    ensures forall v | v0 <= v <= w :: v in r
    ensures Distinct(r)
    ensures |r| == if v0 <= w then w - v0 + 1 else 0
    decreases w - v0
  {
    if v0 > w then []
    else
      var rest := T2From(w, v0 + 1);
      DistinctAppend([v0], rest);
      [v0] + rest
  }

  function T2Keys(w: nat): (r: seq<int>)
    ensures forall v | v in r :: IsVehicle(w, v)
    ensures forall v | IsVehicle(w, v) :: v in r
    ensures Distinct(r) && |r| == w
  {
    T2From(w, 1)
  }
}
