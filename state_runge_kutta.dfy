/** `Step4` run on the position/velocity `State`: what one RK4 increment is
    for a constant derivative and for the linear test equation y' = lam y. */
module StateRungeKutta {
  import opened RungeKutta
  import opened StateAlgebra

  /** With a constant derivative c the RK4 increment over dt is exactly
      dt * c. */
  lemma Step4ConstantSlope(f: (real, State) -> State, c: State, t: real, Y: State, dt: real)
    requires forall s, Z :: f(s, Z) == c
    ensures Step4(StateOps, f, t, Y, c, dt) == ScaleLeft(dt, c)
  {
    var sum := Add(Add(Add(c, ScaleLeft(2.0, c)), ScaleLeft(2.0, c)), c);
    assert sum == State(6.0 * c.X, 6.0 * c.V);
    assert ScaleLeft(dt / 6.0, sum) == State(c.X * dt, c.V * dt);
  }

  /** The fourth-order Taylor polynomial of exp, without its constant term:
      z + z^2/2 + z^3/6 + z^4/24. */
  function ExpTaylor4(z: real): real
  {
    z + z * z / 2.0 + z * z * z / 6.0 + z * z * z * z / 24.0
  }

  /** A slope of y' = lam y taken at y + h k with h = c dt, times dt, in terms of
      z = lam dt and the previous slope times dt. */
  lemma SlopeTimesStep(y: real, lam: real, dt: real, h: real, c: real, k: real, next: real)
    requires h == c * dt
    requires next == (y + k * h) * lam
    ensures next * dt == (y + c * (k * dt)) * (lam * dt)
  {
  }

  lemma FirstSlopeTimesStep(y: real, lam: real, dt: real, k1: real)
    requires k1 == y * lam
    ensures k1 * dt == y * (lam * dt)
  {
  }

  /** y times the Taylor polynomial, in powers p_i = y z^i. */
  function TaylorPowers(y: real, z: real): real
  {
    y * z + (y * z * z) / 2.0 + (y * z * z * z) / 6.0 + (y * z * z * z * z) / 24.0
  }

  lemma TaylorInPowers(y: real, z: real)
    ensures y * ExpTaylor4(z) == TaylorPowers(y, z)
  {
  }

  /** One RK4 increment of the scalar equation y' = lam y, slope by slope:
      with u_i = k_i dt and z = lam dt, u1 = y z, u2 = (y + u1/2) z,
      u3 = (y + u2/2) z, u4 = (y + u3) z. */
  lemma ScalarLinearStep(y: real, lam: real, dt: real, k1: real, k2: real, k3: real, k4: real)
    requires k1 == y * lam
    requires k2 == (y + k1 * (dt / 2.0)) * lam
    requires k3 == (y + k2 * (dt / 2.0)) * lam
    requires k4 == (y + k3 * dt) * lam
    ensures (k1 + k2 * 2.0 + k3 * 2.0 + k4) * (dt / 6.0) == y * ExpTaylor4(lam * dt)
  {
    ScaledSlopes(y, lam, dt, k1, k2, k3, k4);
    ScaledSum(y, lam * dt, dt, k1, k2, k3, k4, k1 * dt, k2 * dt, k3 * dt, k4 * dt);
  }

  /** The four slope equations multiplied through by dt. */
  lemma ScaledSlopes(y: real, lam: real, dt: real, k1: real, k2: real, k3: real, k4: real)
    requires k1 == y * lam
    requires k2 == (y + k1 * (dt / 2.0)) * lam
    requires k3 == (y + k2 * (dt / 2.0)) * lam
    requires k4 == (y + k3 * dt) * lam
    ensures k1 * dt == y * (lam * dt)
    ensures k2 * dt == (y + 0.5 * (k1 * dt)) * (lam * dt)
    ensures k3 * dt == (y + 0.5 * (k2 * dt)) * (lam * dt)
    ensures k4 * dt == (y + 1.0 * (k3 * dt)) * (lam * dt)
  {
    FirstSlopeTimesStep(y, lam, dt, k1);
    SlopeTimesStep(y, lam, dt, dt / 2.0, 0.5, k1, k2);
    SlopeTimesStep(y, lam, dt, dt / 2.0, 0.5, k2, k3);
    SlopeTimesStep(y, lam, dt, dt, 1.0, k3, k4);
  }

  /** The weighted RK4 sum, given the slopes times dt as u_i. */
  lemma ScaledSum(y: real, z: real, dt: real, k1: real, k2: real, k3: real, k4: real,
                  u1: real, u2: real, u3: real, u4: real)
    requires u1 == k1 * dt && u2 == k2 * dt && u3 == k3 * dt && u4 == k4 * dt
    requires u1 == y * z
    requires u2 == (y + 0.5 * u1) * z
    requires u3 == (y + 0.5 * u2) * z
    requires u4 == (y + 1.0 * u3) * z
    ensures (k1 + k2 * 2.0 + k3 * 2.0 + k4) * (dt / 6.0) == y * ExpTaylor4(z)
  {
    TaylorInPowers(y, z);
    Polynomials(y, z, u1, u2, u3, u4);
    WeightedSumTimesStep(k1, k2, k3, k4, dt);
    SixthOfSix((k1 + k2 * 2.0 + k3 * 2.0 + k4) * (dt / 6.0),
               u1 + 2.0 * u2 + 2.0 * u3 + u4,
               TaylorPowers(y, z), y * ExpTaylor4(z));
  }

  lemma SixthOfSix(l: real, u: real, p: real, e: real)
    requires l == u / 6.0
    requires u == 6.0 * p
    requires e == p
    ensures l == e
  {
  }

  /** The slope recurrence expanded into powers of z. */
  lemma Polynomials(y: real, z: real, u1: real, u2: real, u3: real, u4: real)
    requires u1 == y * z
    requires u2 == (y + 0.5 * u1) * z
    requires u3 == (y + 0.5 * u2) * z
    requires u4 == (y + 1.0 * u3) * z
    ensures u1 + 2.0 * u2 + 2.0 * u3 + u4 == 6.0 * TaylorPowers(y, z)
  {
    var p1 := y * z;
    var p2 := p1 * z;
    var p3 := p2 * z;
    var p4 := p3 * z;
    assert u1 == p1;
    assert u2 == p1 + p2 / 2.0;
    assert u3 == p1 + p2 / 2.0 + p3 / 4.0;
    assert u4 == p1 + p2 + p3 / 2.0 + p4 / 4.0;
  }

  lemma WeightedSumTimesStep(k1: real, k2: real, k3: real, k4: real, dt: real)
    ensures (k1 + k2 * 2.0 + k3 * 2.0 + k4) * (dt / 6.0)
         == (k1 * dt + 2.0 * (k2 * dt) + 2.0 * (k3 * dt) + k4 * dt) / 6.0
  {
  }

  /** `Step4` on `State`, written with the struct's own operators. */
  lemma Step4OnState(f: (real, State) -> State, t: real, Y: State, k1: State, dt: real)
    ensures var k2 := f(t + 0.5 * dt, Add(Y, ScaleLeft(dt / 2.0, k1)));
            var k3 := f(t + 0.5 * dt, Add(Y, ScaleLeft(dt / 2.0, k2)));
            var k4 := f(t + 1.0 * dt, Add(Y, ScaleLeft(dt, k3)));
            Step4(StateOps, f, t, Y, k1, dt)
              == ScaleLeft(dt / 6.0, Add(Add(Add(k1, ScaleLeft(2.0, k2)), ScaleLeft(2.0, k3)), k4))
  {
  }

  /** On `State` the RK4 increment is computed component by component:
      given the stage slopes k2, k3 and k4 at Y + dt/2 k1, Y + dt/2 k2 and
      Y + dt k3, it is dt/6 (k1 + 2 k2 + 2 k3 + k4) in X and in V. */
  lemma Step4Componentwise(f: (real, State) -> State, t: real, Y: State, dt: real,
                           k1: State, k2: State, k3: State, k4: State)
    requires k2 == f(t + 0.5 * dt, Add(Y, ScaleLeft(dt / 2.0, k1)))
    requires k3 == f(t + 0.5 * dt, Add(Y, ScaleLeft(dt / 2.0, k2)))
    requires k4 == f(t + 1.0 * dt, Add(Y, ScaleLeft(dt, k3)))
    ensures Step4(StateOps, f, t, Y, k1, dt)
         == State(dt / 6.0 * (k1.X + 2.0 * k2.X + 2.0 * k3.X + k4.X),
                  dt / 6.0 * (k1.V + 2.0 * k2.V + 2.0 * k3.V + k4.V))
  {
    Step4OnState(f, t, Y, k1, dt);
    WeightedInComponents(k1, k2, k3, k4, dt / 6.0);
  }

  lemma WeightedInComponents(k1: State, k2: State, k3: State, k4: State, w: real)
    ensures ScaleLeft(w, Add(Add(Add(k1, ScaleLeft(2.0, k2)), ScaleLeft(2.0, k3)), k4))
         == State(w * (k1.X + 2.0 * k2.X + 2.0 * k3.X + k4.X), w * (k1.V + 2.0 * k2.V + 2.0 * k3.V + k4.V))
  {
  }

  /** Shifting Y by c times a multiple of itself gives another multiple. */
  lemma ShiftByMultiple(Y: State, a: real, c: real)
    ensures Add(Y, ScaleLeft(c, Scale(Y, a))) == Scale(Y, 1.0 + a * c)
  {
  }

  lemma ScaleMultiple(Y: State, a: real, b: real)
    ensures ScaleLeft(b, Scale(Y, a)) == Scale(Y, a * b)
  {
  }

  lemma AddMultiples(Y: State, a: real, b: real)
    ensures Add(Scale(Y, a), Scale(Y, b)) == Scale(Y, a + b)
  {
  }

  /** A slope of y' = lam y taken at Y + c k, where k is the multiple a of Y,
      is again a multiple of Y. */
  lemma SlopeOfMultiple(f: (real, State) -> State, lam: real, s: real, Y: State, c: real,
                         a: real, k: State, b: real)
    requires forall s, Z :: f(s, Z) == ScaleLeft(lam, Z)
    requires k == Scale(Y, a)
    requires b == (1.0 + a * c) * lam
    ensures f(s, Add(Y, ScaleLeft(c, k))) == Scale(Y, b)
  {
    ShiftByMultiple(Y, a, c);
    ScaleMultiple(Y, 1.0 + a * c, lam);
  }

  /** The weighted RK4 sum of four multiples of Y, times dt / 6. */
  lemma WeightedMultiples(Y: State, dt: real, c1: real, c2: real, c3: real, c4: real)
    ensures ScaleLeft(dt / 6.0, Add(Add(Add(Scale(Y, c1), ScaleLeft(2.0, Scale(Y, c2))),
                                        ScaleLeft(2.0, Scale(Y, c3))), Scale(Y, c4)))
         == Scale(Y, (c1 + c2 * 2.0 + c3 * 2.0 + c4) * (dt / 6.0))
  {
    ScaleMultiple(Y, c2, 2.0);
    AddMultiples(Y, c1, c2 * 2.0);
    ScaleMultiple(Y, c3, 2.0);
    AddMultiples(Y, c1 + c2 * 2.0, c3 * 2.0);
    AddMultiples(Y, c1 + c2 * 2.0 + c3 * 2.0, c4);
    ScaleMultiple(Y, c1 + c2 * 2.0 + c3 * 2.0 + c4, dt / 6.0);
  }

  /** The scalar recurrence for y = 1: the RK4 growth factor of y' = lam y. */
  lemma UnitLinearStep(lam: real, dt: real, c1: real, c2: real, c3: real, c4: real)
    requires c1 == lam
    requires c2 == (1.0 + c1 * (dt / 2.0)) * lam
    requires c3 == (1.0 + c2 * (dt / 2.0)) * lam
    requires c4 == (1.0 + c3 * dt) * lam
    ensures (c1 + c2 * 2.0 + c3 * 2.0 + c4) * (dt / 6.0) == ExpTaylor4(lam * dt)
  {
    ScalarLinearStep(1.0, lam, dt, c1, c2, c3, c4);
  }

  /** For the linear system y' = lam y every slope is a multiple of Y, and
      the RK4 increment is Y scaled by the degree-4 Taylor polynomial of
      exp(lam dt) - 1. */
  lemma Step4Linear(f: (real, State) -> State, lam: real, t: real, Y: State, dt: real)
    requires forall s, Z :: f(s, Z) == ScaleLeft(lam, Z)
    ensures Step4(StateOps, f, t, Y, f(t, Y), dt) == Scale(Y, ExpTaylor4(lam * dt))
  {
    var c1 := lam;
    var c2 := (1.0 + c1 * (dt / 2.0)) * lam;
    var c3 := (1.0 + c2 * (dt / 2.0)) * lam;
    var c4 := (1.0 + c3 * dt) * lam;
    var k1 := f(t, Y);
    var k2 := f(t + 0.5 * dt, Add(Y, ScaleLeft(dt / 2.0, k1)));
    var k3 := f(t + 0.5 * dt, Add(Y, ScaleLeft(dt / 2.0, k2)));
    var k4 := f(t + 1.0 * dt, Add(Y, ScaleLeft(dt, k3)));
    SlopeOfMultiple(f, lam, t + 0.5 * dt, Y, dt / 2.0, c1, k1, c2);
    SlopeOfMultiple(f, lam, t + 0.5 * dt, Y, dt / 2.0, c2, k2, c3);
    SlopeOfMultiple(f, lam, t + 1.0 * dt, Y, dt, c3, k3, c4);
    Step4OnState(f, t, Y, k1, dt);
    WeightedMultiples(Y, dt, c1, c2, c3, c4);
    UnitLinearStep(lam, dt, c1, c2, c3, c4);
  }
}
