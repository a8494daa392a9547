/** The adaptive fourth-order Runge-Kutta integrator: `Step4`, the single
    RK4 increment, and `Solve4`, the driver that grows the step when a
    doubled step agrees with the previous increment and shrinks it while a
    step disagrees with the half-step estimate. Both are generic in the
    state type `T`, whose operators come in `ops`.

    `Solve4` is written as the source writes it, a method with an outer and
    an inner `while` loop, and is proved equal to a functional description
    of the same loop: `Control` is one pass through the loop body up to the
    accepted step, `Shrink` is the inner halving loop, and `Run` is the
    outer loop. Neither loop of the source is guaranteed to stop, so the
    model bounds them: `maxSteps` passes of the outer loop and `maxHalvings`
    halvings per inner loop; when a bound is hit the result carries the
    samples recorded so far and `finished == false`. Before the loop the
    source allocates its output list with the capacity
    `(int)((t2 - t1) / dt0) + 1`; where that throws the model's outcome is
    `None`. */
module RungeKutta {
  import opened Computable
  import opened Wrappers
  import opened ListCapacity

  /** The default of the `eps` parameter. */
  const DefaultEps: real := 0.00001

  /** One recorded output entry `(Time, Value)`. */
  datatype Sample<T> = Sample(time: real, value: T)

  /** What `Solve4` returns: the samples, and whether the loop ended on its
      own condition `t > t2` rather than on an iteration bound. */
  datatype Solution<T> = Solution(samples: seq<Sample<T>>, finished: bool)

  /** The four variables the driver loop reassigns. */
  datatype RunState<T> = RunState(t: real, Y: T, dt: real, dYLast: T)

  /** The step size and increment that one pass of the loop body accepts. */
  datatype Accepted<T> = Accepted(dt: real, dY: T)

  /** One RK4 increment from (t, Y) over dt, reusing the caller's k1. */
  function Step4<T>(ops: Ops<T>, f: (real, T) -> T, t: real, Y: T, k1: T, dt: real): T
  {
    var k2 := f(t + 0.5 * dt, ops.add(Y, ops.mulLeft(dt / 2.0, k1)));
    var k3 := f(t + 0.5 * dt, ops.add(Y, ops.mulLeft(dt / 2.0, k2)));
    var k4 := f(t + 1.0 * dt, ops.add(Y, ops.mulLeft(dt, k3)));
    ops.mulLeft(dt / 6.0, ops.add(ops.add(ops.add(k1, ops.mulLeft(2.0, k2)), ops.mulLeft(2.0, k3)), k4))
  }

  /** The inner loop: halve dt and recompute dY0 while every component of
      dY0 - dY1 exceeds eps; dY1 stays the estimate it was on entry. */
  function Shrink<T>(ops: Ops<T>, f: (real, T) -> T, t: real, Y: T, k1: T, dt: real,
                     dY0: T, dY1: T, eps: real, halvings: nat): Option<Accepted<T>>
    decreases halvings
  {
    if !ops.above(ops.sub(dY0, dY1), eps) then Some(Accepted(dt, dY0))
    else if halvings == 0 then None
    else Shrink(ops, f, t, Y, k1, dt / 2.0, Step4(ops, f, t, Y, k1, dt / 2.0), dY1, eps, halvings - 1)
  }

  /** One pass through the outer loop body, up to the accepted step: no
      error control while dY_last is the default value, else grow or shrink. */
  function Control<T>(ops: Ops<T>, f: (real, T) -> T, rs: RunState<T>, eps: real, halvings: nat)
    : Option<Accepted<T>>
  {
    var k1 := f(rs.t, rs.Y);
    var dY0 := Step4(ops, f, rs.t, rs.Y, k1, rs.dt);
    if !ops.ne(rs.dYLast, ops.zero) then
      Some(Accepted(rs.dt, dY0))
    else
      var dY1 := Step4(ops, f, rs.t, rs.Y, k1, rs.dt * 2.0);
      if ops.below(ops.sub(dY1, rs.dYLast), eps) then
        Some(Accepted(rs.dt * 2.0, dY1))
      else
        Shrink(ops, f, rs.t, rs.Y, k1, rs.dt, dY0, Step4(ops, f, rs.t, rs.Y, k1, rs.dt / 2.0), eps, halvings)
  }

  /** The end of the loop body: remember the increment, apply it, advance t. */
  function Advance<T>(ops: Ops<T>, rs: RunState<T>, a: Accepted<T>): (r: RunState<T>)
    ensures r.dYLast == a.dY && r.dt == a.dt
    ensures r.t - rs.t == a.dt
    ensures r.Y == ops.add(rs.Y, a.dY)
  {
    RunState(rs.t + a.dt, ops.add(rs.Y, a.dY), a.dt, a.dY)
  }

  /** The outer loop from state rs, for at most `steps` passes: the loop
      test `t <= t2`. */
  function Run<T>(ops: Ops<T>, f: (real, T) -> T, t2: real, eps: real, rs: RunState<T>,
                  steps: nat, halvings: nat): Solution<T>
    decreases steps, 2
  {
    if rs.t > t2 then Solution([], true)
    else Pass(ops, f, t2, eps, rs, steps, halvings)
  }

  /** The bound on passes: with none left the run stops unfinished. */
  function Pass<T>(ops: Ops<T>, f: (real, T) -> T, t2: real, eps: real, rs: RunState<T>,
                   steps: nat, halvings: nat): Solution<T>
    decreases steps, 1
  {
    if steps == 0 then Solution([], false)
    else Body(ops, f, t2, eps, rs, steps - 1, halvings)
  }

  /** One pass of the loop body, recording its sample, then the rest of the
      loop with `remaining` passes. */
  function Body<T>(ops: Ops<T>, f: (real, T) -> T, t2: real, eps: real, rs: RunState<T>,
                   remaining: nat, halvings: nat): Solution<T>
    decreases remaining, 3
  {
    match Control(ops, f, rs, eps, halvings)
    case None => Solution([], false)
    case Some(a) =>
      var next := Advance(ops, rs, a);
      var rest := Run(ops, f, t2, eps, next, remaining, halvings);
      Solution([Sample(next.t, next.Y)] + rest.samples, rest.finished)
  }

  /** The loop variables on entry: dY_last is the default value. */
  function Start<T>(ops: Ops<T>, t1: real, dt0: real, X0: T): RunState<T>
  {
    RunState(t1, X0, dt0, ops.zero)
  }

  /** The whole call: no outcome when the output list cannot be created,
      otherwise the run of the loop from the start variables. */
  function Solve4Spec<T>(ops: Ops<T>, f: (real, T) -> T, t1: real, t2: real, dt0: real, X0: T,
                         eps: real, maxSteps: nat, maxHalvings: nat): Option<Solution<T>>
  {
    if !CapacityOk(t1, t2, dt0) then None
    else Some(Run(ops, f, t2, eps, Start(ops, t1, dt0, X0), maxSteps, maxHalvings))
  }

  /** `s` followed by the rest of a run. */
  function Prepend<T>(s: seq<Sample<T>>, rest: Solution<T>): Solution<T>
  {
    Solution(s + rest.samples, rest.finished)
  }

  lemma PrependTwice<T>(s: seq<Sample<T>>, u: seq<Sample<T>>, rest: Solution<T>)
    ensures Prepend(s, Prepend(u, rest)) == Prepend(s + u, rest)
  {
    assert s + (u + rest.samples) == (s + u) + rest.samples;
  }

  /** A pass of the outer loop that accepts `a` records its sample first. */
  lemma RunAccepts<T>(ops: Ops<T>, f: (real, T) -> T, t2: real, eps: real, rs: RunState<T>,
                      steps: nat, halvings: nat, a: Accepted<T>)
    requires rs.t <= t2 && steps > 0
    requires Control(ops, f, rs, eps, halvings) == Some(a)
    ensures Run(ops, f, t2, eps, rs, steps, halvings)
         == Prepend([Sample(rs.t + a.dt, ops.add(rs.Y, a.dY))],
                    Run(ops, f, t2, eps, Advance(ops, rs, a), steps - 1, halvings))
  {
    assert Run(ops, f, t2, eps, rs, steps, halvings) == Pass(ops, f, t2, eps, rs, steps, halvings)
        == Body(ops, f, t2, eps, rs, steps - 1, halvings);
  }

  /** A pass that finds no passes left, or whose halving loop gives up,
      ends the run unfinished. */
  lemma RunStalls<T>(ops: Ops<T>, f: (real, T) -> T, t2: real, eps: real, rs: RunState<T>,
                     steps: nat, halvings: nat)
    requires rs.t <= t2
    requires steps == 0 || Control(ops, f, rs, eps, halvings) == None
    ensures Run(ops, f, t2, eps, rs, steps, halvings) == Solution([], false)
  {
    if steps > 0 {
      assert Pass(ops, f, t2, eps, rs, steps, halvings) == Body(ops, f, t2, eps, rs, steps - 1, halvings);
    }
  }

  /** The loop body of `Solve4` up to the accepted step (lines 27-51 of
      RungeKutta4.cs): evaluate k1 once, take the tentative
      increment at dt and, once a previous increment exists, either double
      dt (the doubled step agrees with the previous increment) or halve it
      while the step disagrees with the half-step estimate. `ok` is false
      only when the halving loop has used up `maxHalvings`. */
  method AcceptStep<T>(ops: Ops<T>, f: (real, T) -> T, t: real, Y: T, dtIn: real, dYLast: T,
                       eps: real, maxHalvings: nat)
    returns (ok: bool, dt: real, dY0: T)
    ensures Control(ops, f, RunState(t, Y, dtIn, dYLast), eps, maxHalvings)
         == if ok then Some(Accepted(dt, dY0)) else None
  {
    dt := dtIn;
    var k1 := f(t, Y);
    dY0 := Step4(ops, f, t, Y, k1, dt);
    if ops.ne(dYLast, ops.zero) {
      var dY1 := Step4(ops, f, t, Y, k1, dt * 2.0);
      if ops.below(ops.sub(dY1, dYLast), eps) {
        dt := dt * 2.0;
        dY0, dY1 := dY1, Step4(ops, f, t, Y, k1, dt * 2.0);
      } else {
        dY1 := Step4(ops, f, t, Y, k1, dt / 2.0);
        var h: nat := maxHalvings;
        while ops.above(ops.sub(dY0, dY1), eps)
          invariant Control(ops, f, RunState(t, Y, dtIn, dYLast), eps, maxHalvings)
                 == Shrink(ops, f, t, Y, k1, dt, dY0, dY1, eps, h)
          decreases h
        {
          if h == 0 {
            return false, dt, dY0;
          }
          dt := dt / 2.0;
          dY0 := Step4(ops, f, t, Y, k1, dt);
          h := h - 1;
        }
      }
    }
    ok := true;
  }

  /** Loop invariant of `Solve4` kept by a pass that accepts `a`: the
      whole run is the samples so far, the new sample, and the run from the
      advanced loop variables. */
  lemma LoopAccepts<T>(ops: Ops<T>, f: (real, T) -> T, t2: real, eps: real, rs: RunState<T>,
                       steps: nat, halvings: nat, a: Accepted<T>, samples: seq<Sample<T>>, whole: Solution<T>)
    requires rs.t <= t2 && steps > 0
    requires Control(ops, f, rs, eps, halvings) == Some(a)
    requires whole == Prepend(samples, Run(ops, f, t2, eps, rs, steps, halvings))
    ensures whole == Prepend(samples + [Sample(rs.t + a.dt, ops.add(rs.Y, a.dY))],
                             Run(ops, f, t2, eps, RunState(rs.t + a.dt, ops.add(rs.Y, a.dY), a.dt, a.dY),
                                 steps - 1, halvings))
  {
    var next := Advance(ops, rs, a);
    RunAccepts(ops, f, t2, eps, rs, steps, halvings, a);
    PrependTwice(samples, [Sample(next.t, next.Y)], Run(ops, f, t2, eps, next, steps - 1, halvings));
  }

  /** A pass that finds no passes left, or whose halving loop gives up,
      ends the run unfinished with the samples so far. */
  lemma LoopStalls<T>(ops: Ops<T>, f: (real, T) -> T, t2: real, eps: real, rs: RunState<T>,
                      steps: nat, halvings: nat, samples: seq<Sample<T>>, whole: Solution<T>)
    requires rs.t <= t2
    requires steps == 0 || Control(ops, f, rs, eps, halvings) == None
    requires whole == Prepend(samples, Run(ops, f, t2, eps, rs, steps, halvings))
    ensures whole == Solution(samples, false)
  {
    RunStalls(ops, f, t2, eps, rs, steps, halvings);
    assert samples + [] == samples;
  }

  /** Once `t > t2` the run is finished with the samples so far. */
  lemma LoopEnds<T>(ops: Ops<T>, f: (real, T) -> T, t2: real, eps: real, rs: RunState<T>,
                    steps: nat, halvings: nat, samples: seq<Sample<T>>, whole: Solution<T>)
    requires rs.t > t2
    requires whole == Prepend(samples, Run(ops, f, t2, eps, rs, steps, halvings))
    ensures whole == Solution(samples, true)
  {
    assert samples + [] == samples;
  }

  /** `Solve4(f, t1, t2, dt0, X0, eps)`: starting from X0 at t1 with step
      dt0 and no previous increment, repeat while t <= t2: accept a step,
      add its increment to Y, advance t by the accepted dt and record
      (t, Y). The outcome is exactly `Solve4Spec`: `None` where creating
      the output list throws; otherwise the samples, where a pass cut short
      by `maxSteps` or `maxHalvings` returns the samples recorded so far
      with `finished == false`. `eps` comes last so that, as in the source,
      it can be left out and defaults to `DefaultEps`. */
  method Solve4<T>(ops: Ops<T>, f: (real, T) -> T, t1: real, t2: real, dt0: real, X0: T,
                   maxSteps: nat, maxHalvings: nat, eps: real := DefaultEps)
    returns (r: Option<Solution<T>>)
    ensures r == Solve4Spec(ops, f, t1, t2, dt0, X0, eps, maxSteps, maxHalvings)
  {
    var dt := dt0;
    var Y := X0;
    if !CapacityOk(t1, t2, dt0) {
      return None;
    }
    ghost var whole := Run(ops, f, t2, eps, Start(ops, t1, dt0, X0), maxSteps, maxHalvings);
    var samples := [];
    var t := t1;
    var dYLast := ops.zero;
    var steps: nat := maxSteps;
    assert [] + whole.samples == whole.samples;
    while t <= t2
      invariant whole == Prepend(samples, Run(ops, f, t2, eps, RunState(t, Y, dt, dYLast), steps, maxHalvings))
      decreases steps
    {
      if steps == 0 {
        LoopStalls(ops, f, t2, eps, RunState(t, Y, dt, dYLast), steps, maxHalvings, samples, whole);
        return Some(Solution(samples, false));
      }
      ghost var rs := RunState(t, Y, dt, dYLast);
      var ok, dY0;
      ok, dt, dY0 := AcceptStep(ops, f, t, Y, dt, dYLast, eps, maxHalvings);
      if !ok {
        LoopStalls(ops, f, t2, eps, rs, steps, maxHalvings, samples, whole);
        return Some(Solution(samples, false));
      }
      LoopAccepts(ops, f, t2, eps, rs, steps, maxHalvings, Accepted(dt, dY0), samples, whole);
      dYLast := dY0;
      Y := ops.add(Y, dY0);
      t := t + dt;
      samples := samples + [Sample(t, Y)];
      steps := steps - 1;
    }
    LoopEnds(ops, f, t2, eps, RunState(t, Y, dt, dYLast), steps, maxHalvings, samples, whole);
    r := Some(Solution(samples, true));
  }
}
