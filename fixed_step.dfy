/** The fixed-step RK4 integrator of the top-level program: plain `double[]`
    vectors, the array helpers `Add`, `Add4` and `Mul` that each fill a new
    array in a loop, the example derivative `dXa`, and the `RungeKutta4` loop
    that records one state per step of size dt while t <= t2. */
module FixedStep {
  import opened Wrappers
  import opened ListCapacity

  /** The program's step size, also used inside `dXa`. */
  const Dt: real := 0.001

  // ---------------------------------------------------------------------
  // Vector contents

  /** Contents of `Add(X, Y)`: X[i] + Y[i] for every index of X. */
  function SumOf(X: seq<real>, Y: seq<real>): (r: seq<real>)
    requires |Y| >= |X|
    ensures |r| == |X|
  {
    seq(|X|, i requires 0 <= i < |X| => X[i] + Y[i])
  }

  /** Contents of `Mul(X, y)`: X[i] * y for every index of X. */
  function ScaledBy(X: seq<real>, y: real): (r: seq<real>)
    ensures |r| == |X|
  {
    seq(|X|, i requires 0 <= i < |X| => X[i] * y)
  }

  /** Contents of `Add4(X1, X2, X3, X4)`: the RK4 weighting
      X1[i] + 2 X2[i] + 2 X3[i] + X4[i] for every index of X1. */
  function WeightedSum4(X1: seq<real>, X2: seq<real>, X3: seq<real>, X4: seq<real>): (r: seq<real>)
    requires |X2| >= |X1| && |X3| >= |X1| && |X4| >= |X1|
    ensures |r| == |X1|
  {
    seq(|X1|, i requires 0 <= i < |X1| => X1[i] + 2.0 * X2[i] + 2.0 * X3[i] + X4[i])
  }

  /** `Add4` is `Add` and `Mul` composed: X1 + 2 X2 + 2 X3 + X4. */
  lemma WeightedSum4IsSumOfScaled(X1: seq<real>, X2: seq<real>, X3: seq<real>, X4: seq<real>)
    requires |X2| == |X1| && |X3| == |X1| && |X4| == |X1|
    ensures WeightedSum4(X1, X2, X3, X4)
         == SumOf(SumOf(SumOf(X1, ScaledBy(X2, 2.0)), ScaledBy(X3, 2.0)), X4)
  {
    var l := WeightedSum4(X1, X2, X3, X4);
    var r := SumOf(SumOf(SumOf(X1, ScaledBy(X2, 2.0)), ScaledBy(X3, 2.0)), X4);
    forall i | 0 <= i < |X1|
      ensures l[i] == r[i]
    {
    }
  }

  // ---------------------------------------------------------------------
  // Array helpers

  /** `Add(X, Y)`: a new array of X's length holding X[i] + Y[i]; neither
      input changes. The source indexes Y up to X's length, so Y must be at
      least as long. */
  method Add(X: array<real>, Y: array<real>) returns (Z: array<real>)
    requires Y.Length >= X.Length
    ensures fresh(Z)
    ensures Z.Length == X.Length
    ensures Z[..] == SumOf(X[..], Y[..])
  {
    Z := new real[X.Length];
    for i := 0 to X.Length
      invariant forall j :: 0 <= j < i ==> Z[j] == X[j] + Y[j]
    {
      Z[i] := X[i] + Y[i];
    }
  }

  /** `Add4(X1, X2, X3, X4)`: a new array of X1's length holding
      X1[i] + 2 X2[i] + 2 X3[i] + X4[i]; no input changes. */
  method Add4(X1: array<real>, X2: array<real>, X3: array<real>, X4: array<real>) returns (Y: array<real>)
    requires X2.Length >= X1.Length && X3.Length >= X1.Length && X4.Length >= X1.Length
    ensures fresh(Y)
    ensures Y.Length == X1.Length
    ensures Y[..] == WeightedSum4(X1[..], X2[..], X3[..], X4[..])
  {
    Y := new real[X1.Length];
    for i := 0 to X1.Length
      invariant forall j :: 0 <= j < i ==> Y[j] == X1[j] + 2.0 * X2[j] + 2.0 * X3[j] + X4[j]
    {
      Y[i] := X1[i] + 2.0 * X2[i] + 2.0 * X3[i] + X4[i];
    }
  }

  /** `Mul(X, y)`: a new array of X's length holding X[i] * y; X does not
      change. */
  method Mul(X: array<real>, y: real) returns (Z: array<real>)
    ensures fresh(Z)
    ensures Z.Length == X.Length
    ensures Z[..] == ScaledBy(X[..], y)
  {
    Z := new real[X.Length];
    for i := 0 to X.Length
      invariant forall j :: 0 <= j < i ==> Z[j] == X[j] * y
    {
      Z[i] := X[i] * y;
    }
    assert forall j :: 0 <= j < X.Length ==> Z[..][j] == ScaledBy(X[..], y)[j];
  }

  // ---------------------------------------------------------------------
  // The derivative

  /** A derivative the integrator can run on vectors of length n: it maps
      every such vector to one of the same length. */
  ghost predicate Admissible(f: (real, seq<real>) -> seq<real>, n: nat)
  {
    forall s, Z :: |Z| == n ==> |f(s, Z)| == n
  }

  /** `dXa(X, a)` for X = (x, v): the position derivative is the velocity
      after one program step Dt under acceleration a, the velocity
      derivative is a. The source reads X[1], so X has at least two
      entries. */
  function DXa(X: seq<real>, a: real): (r: seq<real>)
    requires |X| >= 2
    ensures |r| == 2
    ensures r[1] == a && r[0] - X[1] == a * Dt
  {
    [X[1] + a * Dt, a]
  }

  /** `dX(t, X) = dXa(X, F(t))` with the forcing F as a parameter. Vectors
      shorter than two, on which the source would fail, are returned
      unchanged. */
  function DX(F: real -> real): (r: (real, seq<real>) -> seq<real>)
    ensures forall s, X :: |X| >= 2 ==>
              |r(s, X)| == 2 && r(s, X)[1] == F(s) && r(s, X)[0] - X[1] == F(s) * Dt
    ensures forall s, X :: |X| < 2 ==> r(s, X) == X
  {
    DXaEverywhere();
    (s: real, X: seq<real>) => if |X| >= 2 then DXa(X, F(s)) else X
  }

  /** The contract of `dXa`, for every state and acceleration at once. */
  lemma DXaEverywhere()
    ensures forall X, a :: |X| >= 2 ==>
              |DXa(X, a)| == 2 && DXa(X, a)[1] == a && DXa(X, a)[0] - X[1] == a * Dt
  {
  }

  /** `dX` keeps a (position, velocity) pair a pair. */
  lemma DXAdmissible(F: real -> real)
    ensures Admissible(DX(F), 2)
  {
    forall s, Z | |Z| == 2
      ensures |DX(F)(s, Z)| == 2
    {
      assert DX(F)(s, Z) == DXa(Z, F(s));
    }
  }

  // ---------------------------------------------------------------------
  // One step and the whole run

  /** A trial slope taken at Y + c k. */
  function SlopeAt(f: (real, seq<real>) -> seq<real>, s: real, Y: seq<real>, k: seq<real>, c: real): seq<real>
    requires |k| >= |Y|
  {
    f(s, SumOf(Y, ScaledBy(k, c)))
  }

  /** dt/6 (k1 + 2 k2 + 2 k3 + k4). */
  function IncrementOf(k1: seq<real>, k2: seq<real>, k3: seq<real>, k4: seq<real>, dt: real): (r: seq<real>)
    requires |k2| >= |k1| && |k3| >= |k1| && |k4| >= |k1|
    ensures |r| == |k1|
  {
    ScaledBy(WeightedSum4(k1, k2, k3, k4), dt / 6.0)
  }

  /** The state after one loop iteration from Y at time t:
      Y + dt/6 (k1 + 2 k2 + 2 k3 + k4). */
  function RK4Step(f: (real, seq<real>) -> seq<real>, t: real, dt: real, Y: seq<real>): (r: seq<real>)
    requires Admissible(f, |Y|)
    ensures |r| == |Y|
  {
    var k1 := f(t + 0.0 * dt, Y);
    var k2 := SlopeAt(f, t + 0.5 * dt, Y, k1, dt / 2.0);
    var k3 := SlopeAt(f, t + 0.5 * dt, Y, k2, dt / 2.0);
    var k4 := SlopeAt(f, t + 1.0 * dt, Y, k3, dt);
    SumOf(Y, IncrementOf(k1, k2, k3, k4, dt))
  }

  /** How many times `for (t = t1; t <= t2; t += dt)` runs its body:
      floor((t2 - t1) / dt) + 1 when t1 <= t2, none otherwise. */
  function Count(t1: real, t2: real, dt: real): nat
    requires dt > 0.0 || t1 > t2
  {
    if t1 > t2 then 0 else QuotientNonNegative(t2 - t1, dt); ((t2 - t1) / dt).Floor + 1
  }

  lemma QuotientNonNegative(a: real, dt: real)
    requires a >= 0.0 && dt > 0.0
    ensures a / dt >= 0.0
  {
  }

  lemma QuotientMinusOne(a: real, dt: real)
    requires dt > 0.0
    ensures (a - dt) / dt == a / dt - 1.0
  {
    assert dt / dt == 1.0;
    assert (a - dt) / dt == a / dt - dt / dt;
  }

  lemma QuotientBelowOne(a: real, dt: real)
    requires 0.0 <= a < dt
    ensures a / dt < 1.0
  {
  }

  /** The capacity the output list is created with is the number of
      iterations, for a positive step and t1 <= t2. */
  lemma CountIsCapacity(t1: real, t2: real, dt: real)
    requires dt > 0.0 && t1 <= t2
    ensures Count(t1, t2, dt) == Capacity(t1, t2, dt)
  {
    QuotientNonNegative(t2 - t1, dt);
  }

  /** One more step of size dt leaves one iteration fewer. */
  lemma CountStep(t: real, t2: real, dt: real)
    requires dt > 0.0 && t <= t2
    ensures Count(t + dt, t2, dt) == Count(t, t2, dt) - 1
  {
    if t + dt <= t2 {
      QuotientMinusOne(t2 - t, dt);
    } else {
      QuotientBelowOne(t2 - t, dt);
    }
  }

  /** The loop variable after i steps: t + dt + ... + dt. */
  function TimeAt(t: real, dt: real, i: nat): real
  {
    if i == 0 then t else TimeAt(t, dt, i - 1) + dt
  }

  /** With exact arithmetic the loop variable after i steps is t + i dt. */
  lemma {:induction false} TimeAtIsLinear(t: real, dt: real, i: nat)
    ensures TimeAt(t, dt, i) == t + (i as real) * dt
  {
    if i > 0 {
      TimeAtIsLinear(t, dt, i - 1);
    }
  }

  /** Starting one step later shifts the loop times by one. */
  lemma {:induction false} TimeShift(t: real, dt: real, i: nat)
    ensures TimeAt(t + dt, dt, i) == TimeAt(t, dt, i + 1)
  {
    if i > 0 {
      TimeShift(t, dt, i - 1);
    }
  }

  /** `Count` is the number of loop times t, t + dt, ... that are at most t2:
      all earlier ones are, and the one it stops at is past t2. */
  lemma {:induction false} CountIsFirstTimePast(t: real, t2: real, dt: real)
    requires dt > 0.0
    ensures TimeAt(t, dt, Count(t, t2, dt)) > t2
    ensures forall i :: 0 <= i < Count(t, t2, dt) ==> TimeAt(t, dt, i) <= t2
    decreases Count(t, t2, dt)
  {
    if t <= t2 {
      var n := Count(t, t2, dt);
      CountStep(t, t2, dt);
      CountIsFirstTimePast(t + dt, t2, dt);
      TimeShift(t, dt, n - 1);
      forall i | 0 < i < n
        ensures TimeAt(t, dt, i) <= t2
      {
        TimeShift(t, dt, i - 1);
      }
    }
  }

  /** With a positive step the loop times increase. */
  lemma {:induction false} TimeAtMonotone(t: real, dt: real, i: nat, j: nat)
    requires dt > 0.0 && i <= j
    ensures TimeAt(t, dt, i) <= TimeAt(t, dt, j)
    decreases j
  {
    if i < j {
      TimeAtMonotone(t, dt, i, j - 1);
    }
  }

  /** With a positive step the loop times pass t2 after finitely many
      steps. */
  lemma LoopBound(t1: real, t2: real, dt: real) returns (N: nat)
    requires dt > 0.0
    ensures TimeAt(t1, dt, N) > t2
  {
    N := Count(t1, t2, dt);
    CountIsFirstTimePast(t1, t2, dt);
  }

  /** A loop time at most t2 comes before any loop time past t2. */
  lemma BeforeBound(t: real, t2: real, dt: real, k: nat, N: nat)
    requires dt > 0.0 && TimeAt(t, dt, k) <= t2 < TimeAt(t, dt, N)
    ensures k < N
  {
    if k >= N {
      TimeAtMonotone(t, dt, N, k);
    }
  }

  /** A loop that runs while t <= t2 from t1 in steps of dt, and stops
      after k iterations, runs `Count(t1, t2, dt)` times. */
  lemma CountExact(t1: real, t2: real, dt: real, k: nat)
    requires dt > 0.0 && TimeAt(t1, dt, k) > t2
    requires k == 0 || TimeAt(t1, dt, k - 1) <= t2
    ensures k == Count(t1, t2, dt)
  {
    CountIsFirstTimePast(t1, t2, dt);
    if k > Count(t1, t2, dt) {
      TimeAtMonotone(t1, dt, Count(t1, t2, dt), k - 1);
    }
  }

  /** The state the next step starts from: the last one recorded, or the
      initial state while nothing is. */
  function Last(tr: seq<seq<real>>, Y: seq<real>): seq<real>
  {
    if |tr| == 0 then Y else tr[|tr| - 1]
  }

  /** The first n states a loop records when each iteration replaces the
      state by `step` taken at the current loop time: t, t + dt, ... */
  function Trajectory(step: (real, seq<real>) -> seq<real>, t: real, dt: real, Y: seq<real>, n: nat)
    : (r: seq<seq<real>>)
    ensures |r| == n
    decreases n
  {
    if n == 0 then []
    else
      var prev := Trajectory(step, t, dt, Y, n - 1);
      prev + [step(TimeAt(t, dt, n - 1), Last(prev, Y))]
  }

  /** A longer run only appends: entry i is the same in every run that
      has one. */
  lemma {:induction false} TrajectoryStable(step: (real, seq<real>) -> seq<real>, t: real, dt: real, Y: seq<real>,
                                            m: nat, n: nat, i: nat)
    requires i < m <= n
    ensures Trajectory(step, t, dt, Y, n)[i] == Trajectory(step, t, dt, Y, m)[i]
    decreases n
  {
    if m < n {
      var prev := Trajectory(step, t, dt, Y, n - 1);
      assert Trajectory(step, t, dt, Y, n)[i] == prev[i];
      TrajectoryStable(step, t, dt, Y, m, n - 1, i);
    }
  }

  /** Entry i of a run is the step taken at loop time i from the entry
      before it; the first is taken from Y, which is not itself recorded. */
  lemma TrajectoryEntry(step: (real, seq<real>) -> seq<real>, t: real, dt: real, Y: seq<real>, n: nat, i: nat)
    requires i < n
    ensures var tr := Trajectory(step, t, dt, Y, n);
      && (i == 0 ==> tr[0] == step(t, Y))
      && (i > 0 ==> tr[i] == step(TimeAt(t, dt, i), tr[i - 1]))
  {
    var prev := Trajectory(step, t, dt, Y, i);
    TrajectoryStable(step, t, dt, Y, i + 1, n, i);
    if i > 0 {
      TrajectoryStable(step, t, dt, Y, i, n, i - 1);
      assert Last(prev, Y) == prev[i - 1];
    }
  }

  /** The loop body of `RungeKutta4` as a function of the loop time and the
      state: `RK4Step` on every vector the derivative keeps the length of. */
  ghost function RK4Stepper(f: (real, seq<real>) -> seq<real>, dt: real): (real, seq<real>) -> seq<real>
  {
    (s: real, Z: seq<real>) => if Admissible(f, |Z|) then RK4Step(f, s, dt, Z) else Z
  }

  /** Every state the RK4 loop records has the initial state's length, and
      is one `RK4Step` from the one before it (from Y for the first). */
  lemma {:induction false} RK4TrajectoryEntry(f: (real, seq<real>) -> seq<real>, t: real, dt: real, Y: seq<real>,
                                              n: nat, i: nat)
    requires Admissible(f, |Y|)
    requires i < n
    ensures var tr := Trajectory(RK4Stepper(f, dt), t, dt, Y, n);
      && |tr[i]| == |Y|
      && (i == 0 ==> tr[0] == RK4Step(f, t, dt, Y))
      && (i > 0 ==> |tr[i - 1]| == |Y| && tr[i] == RK4Step(f, TimeAt(t, dt, i), dt, tr[i - 1]))
    decreases i
  {
    var tr := Trajectory(RK4Stepper(f, dt), t, dt, Y, n);
    TrajectoryEntry(RK4Stepper(f, dt), t, dt, Y, n, i);
    if i > 0 {
      RK4TrajectoryEntry(f, t, dt, Y, n, i - 1);
      assert tr[i] == RK4Stepper(f, dt)(TimeAt(t, dt, i), tr[i - 1]);
    } else {
      assert tr[0] == RK4Stepper(f, dt)(t, Y);
    }
  }

  /** Adding any multiple of a zero vector changes nothing. */
  lemma AddScaledZero(Y: seq<real>, Z: seq<real>, c: real)
    requires |Z| == |Y|
    requires forall i :: 0 <= i < |Z| ==> Z[i] == 0.0
    ensures SumOf(Y, ScaledBy(Z, c)) == Y
  {
    var r := SumOf(Y, ScaledBy(Z, c));
    forall i | 0 <= i < |Y|
      ensures r[i] == Y[i]
    {
      assert ScaledBy(Z, c)[i] == 0.0 * c;
    }
  }

  /** One step from rest under zero forcing stays at rest. */
  lemma StepAtRest(F: real -> real, t: real, dt: real, x: real)
    requires forall s :: F(s) == 0.0
    ensures Admissible(DX(F), 2)
    ensures RK4Step(DX(F), t, dt, [x, 0.0]) == [x, 0.0]
  {
    DXAdmissible(F);
    var f := DX(F);
    var Y := [x, 0.0];
    var zero := [0.0, 0.0];
    assert f(t + 0.0 * dt, Y) == zero;
    AddScaledZero(Y, zero, dt / 2.0);
    AddScaledZero(Y, zero, dt);
    assert f(t + 0.5 * dt, Y) == zero;
    assert f(t + 1.0 * dt, Y) == zero;
    var w := WeightedSum4(zero, zero, zero, zero);
    assert w[0] == 0.0 && w[1] == 0.0;
    AddScaledZero(Y, w, dt / 6.0);
  }

  /** For a derivative that is the same vector c everywhere, one step adds
      exactly dt c. */
  lemma RK4StepConstantSlope(f: (real, seq<real>) -> seq<real>, c: seq<real>, t: real, dt: real, Y: seq<real>)
    requires |c| == |Y|
    requires forall s, Z :: f(s, Z) == c
    ensures Admissible(f, |Y|)
    ensures RK4Step(f, t, dt, Y) == SumOf(Y, ScaledBy(c, dt))
  {
    var w := WeightedSum4(c, c, c, c);
    var inc := IncrementOf(c, c, c, c, dt);
    forall i | 0 <= i < |c|
      ensures inc[i] == ScaledBy(c, dt)[i]
    {
      assert w[i] == 6.0 * c[i];
    }
    assert inc == ScaledBy(c, dt);
    assert f(t + 0.0 * dt, Y) == c;
  }

  /** With zero forcing, a body at rest at x stays at rest: every recorded
      state is (x, 0). */
  lemma {:induction false} TrajectoryAtRest(F: real -> real, t: real, dt: real, x: real, n: nat)
    requires forall s :: F(s) == 0.0
    ensures forall i :: 0 <= i < n ==> Trajectory(RK4Stepper(DX(F), dt), t, dt, [x, 0.0], n)[i] == [x, 0.0]
    decreases n
  {
    if n > 0 {
      var Y := [x, 0.0];
      var step := RK4Stepper(DX(F), dt);
      TrajectoryAtRest(F, t, dt, x, n - 1);
      var prev := Trajectory(step, t, dt, Y, n - 1);
      var tr := Trajectory(step, t, dt, Y, n);
      assert Last(prev, Y) == Y by {
        if |prev| > 0 {
          assert prev[|prev| - 1] == Y;
        }
      }
      StepAtRest(F, TimeAt(t, dt, n - 1), dt, x);
      assert step(TimeAt(t, dt, n - 1), Y) == Y;
      assert tr == prev + [Y];
    }
  }

  // ---------------------------------------------------------------------
  // The integrator

  /** The call `f(t, Y)`: the derivative returns a new array. */
  method Call(f: (real, seq<real>) -> seq<real>, t: real, Y: array<real>) returns (r: array<real>)
    ensures fresh(r)
    ensures r[..] == f(t, Y[..])
  {
    var v := f(t, Y[..]);
    r := new real[|v|](i requires 0 <= i < |v| => v[i]);
  }

  /** A trial slope: `f(s, Add(Y, Mul(k, c)))`. */
  method Slope(f: (real, seq<real>) -> seq<real>, s: real, Y: array<real>, k: array<real>, c: real)
    returns (r: array<real>)
    requires k.Length >= Y.Length
    ensures fresh(r)
    ensures r[..] == SlopeAt(f, s, Y[..], k[..], c)
  {
    var m := Mul(k, c);
    var a := Add(Y, m);
    r := Call(f, s, a);
  }

  /** The increment `Mul(Add4(k1, k2, k3, k4), dt / 6)`. */
  method Increment(k1: array<real>, k2: array<real>, k3: array<real>, k4: array<real>, dt: real)
    returns (r: array<real>)
    requires k2.Length >= k1.Length && k3.Length >= k1.Length && k4.Length >= k1.Length
    ensures fresh(r)
    ensures r[..] == IncrementOf(k1[..], k2[..], k3[..], k4[..], dt)
  {
    var w := Add4(k1, k2, k3, k4);
    r := Mul(w, dt / 6.0);
  }

  /** The four slopes of one loop body, each in a new array. */
  method Slopes(f: (real, seq<real>) -> seq<real>, t: real, dt: real, Y: array<real>)
    returns (k1: array<real>, k2: array<real>, k3: array<real>, k4: array<real>)
    requires Admissible(f, Y.Length)
    ensures fresh(k1) && fresh(k2) && fresh(k3) && fresh(k4)
    ensures k1[..] == f(t + 0.0 * dt, Y[..])
    ensures k2[..] == SlopeAt(f, t + 0.5 * dt, Y[..], k1[..], dt / 2.0)
    ensures k3[..] == SlopeAt(f, t + 0.5 * dt, Y[..], k2[..], dt / 2.0)
    ensures k4[..] == SlopeAt(f, t + 1.0 * dt, Y[..], k3[..], dt)
  {
    k1 := Call(f, t + 0.0 * dt, Y);
    k2 := Slope(f, t + 0.5 * dt, Y, k1, dt / 2.0);
    k3 := Slope(f, t + 0.5 * dt, Y, k2, dt / 2.0);
    k4 := Slope(f, t + 1.0 * dt, Y, k3, dt);
  }

  /** One loop body of `RungeKutta4`: the new state array from Y at time t. */
  method Step(f: (real, seq<real>) -> seq<real>, t: real, dt: real, Y: array<real>) returns (Y': array<real>)
    requires Admissible(f, Y.Length)
    ensures fresh(Y')
    ensures Y'[..] == RK4Step(f, t, dt, old(Y[..]))
  {
    var k1, k2, k3, k4 := Slopes(f, t, dt, Y);
    var m := Increment(k1, k2, k3, k4, dt);
    Y' := Add(Y, m);
  }

  /** `step` does what one loop iteration does to a vector of length n. */
  ghost predicate StepsLike(step: (real, seq<real>) -> seq<real>, f: (real, seq<real>) -> seq<real>, dt: real, n: nat)
    requires Admissible(f, n)
  {
    forall s, Z {:trigger RK4Step(f, s, dt, Z)} :: |Z| == n ==> step(s, Z) == RK4Step(f, s, dt, Z)
  }

  lemma RK4StepperStepsLike(f: (real, seq<real>) -> seq<real>, dt: real, n: nat)
    requires Admissible(f, n)
    ensures StepsLike(RK4Stepper(f, dt), f, dt, n)
  {
  }

  /** The loop of `RungeKutta4`, for any `step` that agrees with one
      iteration: the new arrays it records, one per loop time at most t2,
      each the step from the one before (from X0 for the first). */
  method Loop(f: (real, seq<real>) -> seq<real>, t1: real, t2: real, dt: real, X0: array<real>,
              ghost step: (real, seq<real>) -> seq<real>)
    returns (list: seq<array<real>>)
    requires dt > 0.0 || t1 > t2
    requires Admissible(f, X0.Length) && StepsLike(step, f, dt, X0.Length)
    ensures |list| == 0 || TimeAt(t1, dt, |list| - 1) <= t2
    ensures TimeAt(t1, dt, |list|) > t2
    ensures t1 > t2 ==> |list| == 0
    ensures forall i :: 0 <= i < |list| ==>
              fresh(list[i]) && list[i][..] == Trajectory(step, t1, dt, X0[..], |list|)[i]
    ensures forall i, j :: 0 <= i < j < |list| ==> list[i] != list[j]
  {
    ghost var x0 := X0[..];
    ghost var N: nat := 0;
    if dt > 0.0 {
      N := LoopBound(t1, t2, dt);
    }
    ghost var done: seq<seq<real>> := [];
    var Y := X0;
    list := [];
    var t := t1;
    while t <= t2
      invariant dt > 0.0 || t > t2
      invariant t1 > t2 ==> |done| == 0
      invariant dt > 0.0 ==> TimeAt(t1, dt, N) > t2
      invariant t == TimeAt(t1, dt, |done|)
      invariant |done| <= N
      invariant |done| == 0 || TimeAt(t1, dt, |done| - 1) <= t2
      invariant done == Trajectory(step, t1, dt, x0, |done|)
      invariant Y.Length == X0.Length && Y[..] == Last(done, x0)
      invariant |list| == |done|
      invariant forall i :: 0 <= i < |list| ==> fresh(list[i]) && list[i][..] == done[i]
      invariant forall i, j :: 0 <= i < j < |list| ==> list[i] != list[j]
      decreases N - |done|
    {
      BeforeBound(t1, t2, dt, |done|, N);
      Y := Step(f, t, dt, Y);
      done := done + [Y[..]];
      list := list + [Y];
      t := t + dt;
    }
  }

  /** `RungeKutta4(f, t1, t2, dt, X0)`: no outcome where creating the
      output list with capacity `(int)((t2 - t1) / dt) + 1` throws;
      otherwise the states recorded by `for (t = t1; t <= t2; t += dt)`, one
      per iteration, each in its own new array: the run of `RK4Step` from X0
      at the loop times, for as long as the loop time is at most t2, which
      is `Count(t1, t2, dt)` entries. X0 is not changed and not part of the
      result. Once the list exists the loop ends only if dt > 0 or it never
      starts. */
  method RungeKutta4(f: (real, seq<real>) -> seq<real>, t1: real, t2: real, dt: real, X0: array<real>)
    returns (r: Option<array<array<real>>>)
    requires CapacityOk(t1, t2, dt) ==> dt > 0.0 || t1 > t2
    requires Admissible(f, X0.Length)
    ensures r.Some? <==> CapacityOk(t1, t2, dt)
    ensures r.Some? ==> fresh(r.value)
    ensures r.Some? ==> r.value.Length == 0 || TimeAt(t1, dt, r.value.Length - 1) <= t2
    ensures r.Some? ==> TimeAt(t1, dt, r.value.Length) > t2
    ensures r.Some? ==> r.value.Length == Count(t1, t2, dt)
    ensures r.Some? ==> forall i :: 0 <= i < r.value.Length ==>
              fresh(r.value[i])
              && r.value[i][..] == Trajectory(RK4Stepper(f, dt), t1, dt, X0[..], r.value.Length)[i]
    ensures r.Some? ==> forall i, j :: 0 <= i < j < r.value.Length ==> r.value[i] != r.value[j]
  {
    if !CapacityOk(t1, t2, dt) {
      return None;
    }
    RK4StepperStepsLike(f, dt, X0.Length);
    var list := Loop(f, t1, t2, dt, X0, RK4Stepper(f, dt));
    if dt > 0.0 {
      CountExact(t1, t2, dt, |list|);
    }
    var YY := new array<real>[|list|](i requires 0 <= i < |list| => list[i]);
    r := Some(YY);
  }
}
