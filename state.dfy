/** The two-component state (position X, velocity V) that the adaptive
    integrator runs on, with the operator set the integrator needs:
    componentwise sum and difference, scaling by a scalar from either side,
    equality, and the two "every component's magnitude is below / above a
    bound" comparisons that drive step-size control. All operations build
    new values; nothing is mutated. */
module StateAlgebra {
  import opened Computable

  function Abs(x: real): (r: real)
    ensures r >= 0.0 && (r == x || r == -x)
  {
    if x < 0.0 then -x else x
  }

  datatype State = State(X: real, V: real)

  /** The default value of the struct: both components zero. The integrator
      uses it as "no previous increment". */
  const Default: State := State(0.0, 0.0)

  /** Largest component magnitude (the max-norm). */
  function MaxNorm(a: State): (r: real)
    ensures r >= 0.0
    ensures Abs(a.X) <= r && Abs(a.V) <= r
    ensures r == Abs(a.X) || r == Abs(a.V)
  {
    if Abs(a.X) < Abs(a.V) then Abs(a.V) else Abs(a.X)
  }

  /** Smallest component magnitude. */
  function MinNorm(a: State): (r: real)
    ensures r >= 0.0
    ensures r <= Abs(a.X) && r <= Abs(a.V)
    ensures r == Abs(a.X) || r == Abs(a.V)
  {
    if Abs(a.X) < Abs(a.V) then Abs(a.X) else Abs(a.V)
  }

  /** `a + b`, componentwise. */
  function Add(a: State, b: State): State
  {
    State(a.X + b.X, a.V + b.V)
  }

  /** `a - b`: it undoes `+ b`. */
  function Sub(a: State, b: State): (r: State)
    ensures Add(r, b) == a
    ensures r == Default <==> a == b
  {
    State(a.X - b.X, a.V - b.V)
  }

  /** `a * k`, componentwise. */
  function Scale(a: State, k: real): State
  {
    State(a.X * k, a.V * k)
  }

  /** `k * a`: the reversed-operand overload gives the same state. */
  function ScaleLeft(k: real, a: State): (r: State)
    ensures r == Scale(a, k)
  {
    State(a.X * k, a.V * k)
  }

  /** `a == b`, comparing the (X, V) tuples. */
  function Eq(a: State, b: State): (r: bool)
    ensures r <==> a == b
  {
    (a.X, a.V) == (b.X, b.V)
  }

  /** `a != b`. */
  function Ne(a: State, b: State): (r: bool)
    ensures r <==> a != b
  {
    !Eq(a, b)
  }

  /** `a < b`: every component's magnitude is strictly below the bound. */
  function Below(a: State, b: real): (r: bool)
    ensures r <==> MaxNorm(a) < b
  {
    Abs(a.X) < b && Abs(a.V) < b
  }

  /** `a > b`: every component's magnitude is strictly above the bound. */
  function Above(a: State, b: real): (r: bool)
    ensures r <==> MinNorm(a) > b
  {
    Abs(a.X) > b && Abs(a.V) > b
  }

  /** Default is the identity of `+` on either side. */
  lemma AddDefault(a: State)
    ensures Add(a, Default) == a && Add(Default, a) == a
  {
  }

  /** Scaling by 0 or scaling Default gives Default; scaling by 1 changes
      nothing. */
  lemma ScaleByZeroOrOne(a: State, k: real)
    ensures k == 0.0 || a == Default ==> Scale(a, k) == Default
    ensures Scale(a, 1.0) == a
  {
  }

  lemma AddCommutes(a: State, b: State)
    ensures Add(a, b) == Add(b, a)
  {
  }

  lemma AddAssociates(a: State, b: State, c: State)
    ensures Add(Add(a, b), c) == Add(a, Add(b, c))
  {
  }

  lemma ScaleDistributes(a: State, b: State, k: real)
    ensures Scale(Add(a, b), k) == Add(Scale(a, k), Scale(b, k))
  {
  }

  /** The two bound comparisons never hold together ... */
  lemma BelowExcludesAbove(a: State, b: real)
    ensures !(Below(a, b) && Above(a, b))
  {
  }

  /** ... but they are not complements: a state with one component above
      the bound and the other below it satisfies neither. */
  lemma MixedStateIsNeither(a: State, b: real)
    requires Abs(a.X) < b < Abs(a.V) || Abs(a.V) < b < Abs(a.X)
    ensures !Below(a, b) && !Above(a, b)
  {
  }

  /** `State` as an instance of the operator set the integrator needs. */
  const StateOps: Ops<State> := Ops(Add, Sub, Scale, ScaleLeft, Eq, Ne, Below, Above, Default)

  lemma StateOpsZeroLaws()
    ensures ZeroLaws(StateOps)
  {
  }
}
