/** What the adaptive driver guarantees, for any state type whose operators
    come in `ops`: the accepted increment is always the RK4 increment over
    the accepted step, the step stays positive and only ever doubles or
    halves, sample times strictly increase, only the last sample lies past
    `t2`, the first pass uses exactly `dt0`, and a zero derivative leaves the
    state where it is. */
module RungeKuttaFacts {
  import opened Computable
  import opened Wrappers
  import opened ListCapacity
  import opened RungeKutta

  /** `dt` halved `n` times. */
  function Halved(dt: real, n: nat): (r: real)
    ensures dt > 0.0 ==> 0.0 < r <= dt
    decreases n
  {
    if n == 0 then dt else Halved(dt / 2.0, n - 1)
  }

  /** `d` is the step `prev` doubled, or `prev` halved at most `h` times. */
  ghost predicate DoubledOrHalved(prev: real, d: real, h: nat)
  {
    d == 2.0 * prev || exists n: nat :: n <= h && d == Halved(prev, n)
  }

  /** The halving loop stops on a step whose increment is the RK4 increment
      over the final dt and does not exceed eps everywhere against the
      half-step estimate dY1 it started with; the final dt is positive and
      at most the starting one. */
  lemma {:induction false} ShrinkExit<T>(ops: Ops<T>, f: (real, T) -> T, t: real, Y: T, k1: T, dt: real,
                                         dY0: T, dY1: T, eps: real, h: nat, a: Accepted<T>)
    requires dt > 0.0
    requires dY0 == Step4(ops, f, t, Y, k1, dt)
    requires Shrink(ops, f, t, Y, k1, dt, dY0, dY1, eps, h) == Some(a)
    ensures a.dY == Step4(ops, f, t, Y, k1, a.dt)
    ensures !ops.above(ops.sub(a.dY, dY1), eps)
    ensures 0.0 < a.dt <= dt
    decreases h
  {
    if ops.above(ops.sub(dY0, dY1), eps) {
      ShrinkExit(ops, f, t, Y, k1, dt / 2.0, Step4(ops, f, t, Y, k1, dt / 2.0), dY1, eps, h - 1, a);
    }
  }

  /** dt halved n times is the first halving, counting from none, whose
      RK4 increment passes the loop's exit test against dY1: every earlier
      one exceeds eps in every component. */
  ghost predicate FirstPass<T>(ops: Ops<T>, f: (real, T) -> T, t: real, Y: T, k1: T, dt: real,
                               dY1: T, eps: real, n: nat)
  {
    && !ops.above(ops.sub(Step4(ops, f, t, Y, k1, Halved(dt, n)), dY1), eps)
    && forall m :: 0 <= m < n ==> ops.above(ops.sub(Step4(ops, f, t, Y, k1, Halved(dt, m)), dY1), eps)
  }

  /** The halving loop stops at the first halving that passes its test, and
      that takes at most `h` halvings. */
  lemma {:induction false} ShrinkStopsFirst<T>(ops: Ops<T>, f: (real, T) -> T, t: real, Y: T, k1: T, dt: real,
                                               dY0: T, dY1: T, eps: real, h: nat, a: Accepted<T>)
    returns (n: nat)
    requires dY0 == Step4(ops, f, t, Y, k1, dt)
    requires Shrink(ops, f, t, Y, k1, dt, dY0, dY1, eps, h) == Some(a)
    ensures n <= h && a.dt == Halved(dt, n)
    ensures FirstPass(ops, f, t, Y, k1, dt, dY1, eps, n)
    decreases h
  {
    if ops.above(ops.sub(dY0, dY1), eps) {
      var half := dt / 2.0;
      var m := ShrinkStopsFirst(ops, f, t, Y, k1, half, Step4(ops, f, t, Y, k1, half), dY1, eps, h - 1, a);
      n := m + 1;
      assert Halved(dt, n) == Halved(half, m);
      forall j | 0 <= j < n
        ensures ops.above(ops.sub(Step4(ops, f, t, Y, k1, Halved(dt, j)), dY1), eps)
      {
        if j > 0 {
          assert Halved(dt, j) == Halved(half, j - 1);
        }
      }
    } else {
      n := 0;
    }
  }

  /** In the shrink branch a pass is the halving loop from the tentative
      increment, against the half-step estimate. */
  lemma ShrinkBranch<T>(ops: Ops<T>, f: (real, T) -> T, rs: RunState<T>, eps: real, h: nat)
    requires ops.ne(rs.dYLast, ops.zero)
    requires !ops.below(ops.sub(Step4(ops, f, rs.t, rs.Y, f(rs.t, rs.Y), rs.dt * 2.0), rs.dYLast), eps)
    ensures Control(ops, f, rs, eps, h)
         == Shrink(ops, f, rs.t, rs.Y, f(rs.t, rs.Y), rs.dt, Step4(ops, f, rs.t, rs.Y, f(rs.t, rs.Y), rs.dt),
                   Step4(ops, f, rs.t, rs.Y, f(rs.t, rs.Y), rs.dt / 2.0), eps, h)
  {
  }

  /** The shrink branch of one pass: the halving loop's exit facts in terms
      of the loop variables, dt halved only while the step disagrees with
      the half-step estimate. */
  lemma ControlShrinks<T>(ops: Ops<T>, f: (real, T) -> T, rs: RunState<T>, eps: real, h: nat, a: Accepted<T>)
    requires rs.dt > 0.0
    requires ops.ne(rs.dYLast, ops.zero)
    requires !ops.below(ops.sub(Step4(ops, f, rs.t, rs.Y, f(rs.t, rs.Y), rs.dt * 2.0), rs.dYLast), eps)
    requires Control(ops, f, rs, eps, h) == Some(a)
    ensures a.dY == Step4(ops, f, rs.t, rs.Y, f(rs.t, rs.Y), a.dt)
    ensures 0.0 < a.dt <= rs.dt
    ensures exists n: nat :: n <= h && a.dt == Halved(rs.dt, n)
              && FirstPass(ops, f, rs.t, rs.Y, f(rs.t, rs.Y), rs.dt, Step4(ops, f, rs.t, rs.Y, f(rs.t, rs.Y), rs.dt / 2.0), eps, n)
    ensures !ops.above(ops.sub(a.dY, Step4(ops, f, rs.t, rs.Y, f(rs.t, rs.Y), rs.dt / 2.0)), eps)
  {
    var k1 := f(rs.t, rs.Y);
    var dY0 := Step4(ops, f, rs.t, rs.Y, k1, rs.dt);
    var dY1 := Step4(ops, f, rs.t, rs.Y, k1, rs.dt / 2.0);
    ShrinkBranch(ops, f, rs, eps, h);
    ShrinkExit(ops, f, rs.t, rs.Y, k1, rs.dt, dY0, dY1, eps, h, a);
    var n := ShrinkStopsFirst(ops, f, rs.t, rs.Y, k1, rs.dt, dY0, dY1, eps, h, a);
    assert n <= h && a.dt == Halved(rs.dt, n) && FirstPass(ops, f, rs.t, rs.Y, k1, rs.dt, dY1, eps, n);
  }

  /** What one pass of the loop body accepts, when dt is positive: the RK4
      increment over the accepted step, which is positive and is the old
      step doubled or halved; with no previous increment dt is kept; dt
      doubles exactly when there is a previous increment and the doubled
      step agrees with it; otherwise the accepted increment agrees with the
      half-step estimate, dt having been halved only while it disagreed. */
  lemma ControlAccepts<T>(ops: Ops<T>, f: (real, T) -> T, rs: RunState<T>, eps: real, h: nat, a: Accepted<T>)
    requires rs.dt > 0.0
    requires Control(ops, f, rs, eps, h) == Some(a)
    ensures a.dY == Step4(ops, f, rs.t, rs.Y, f(rs.t, rs.Y), a.dt)
    ensures a.dt > 0.0 && DoubledOrHalved(rs.dt, a.dt, h)
    ensures !ops.ne(rs.dYLast, ops.zero) ==> a.dt == rs.dt
    ensures a.dt == 2.0 * rs.dt ==> ops.ne(rs.dYLast, ops.zero) && ops.below(ops.sub(a.dY, rs.dYLast), eps)
    ensures ops.ne(rs.dYLast, ops.zero)
            && ops.below(ops.sub(Step4(ops, f, rs.t, rs.Y, f(rs.t, rs.Y), rs.dt * 2.0), rs.dYLast), eps)
            ==> a.dt == 2.0 * rs.dt
    ensures ops.ne(rs.dYLast, ops.zero) && a.dt != 2.0 * rs.dt
            ==> !ops.above(ops.sub(a.dY, Step4(ops, f, rs.t, rs.Y, f(rs.t, rs.Y), rs.dt / 2.0)), eps)
    ensures ops.ne(rs.dYLast, ops.zero)
            && !ops.below(ops.sub(Step4(ops, f, rs.t, rs.Y, f(rs.t, rs.Y), rs.dt * 2.0), rs.dYLast), eps)
            ==> exists n: nat :: n <= h && a.dt == Halved(rs.dt, n)
                  && FirstPass(ops, f, rs.t, rs.Y, f(rs.t, rs.Y), rs.dt,
                               Step4(ops, f, rs.t, rs.Y, f(rs.t, rs.Y), rs.dt / 2.0), eps, n)
  {
    var k1 := f(rs.t, rs.Y);
    if !ops.ne(rs.dYLast, ops.zero) {
      assert a == Accepted(rs.dt, Step4(ops, f, rs.t, rs.Y, k1, rs.dt));
      assert a.dt == Halved(rs.dt, 0);
    } else if ops.below(ops.sub(Step4(ops, f, rs.t, rs.Y, k1, rs.dt * 2.0), rs.dYLast), eps) {
      assert a == Accepted(rs.dt * 2.0, Step4(ops, f, rs.t, rs.Y, k1, rs.dt * 2.0));
    } else {
      ControlShrinks(ops, f, rs, eps, h, a);
    }
  }

  /** The step one pass accepts, alone: positive, and the old step doubled
      or halved at most h times. */
  lemma ControlStepSize<T>(ops: Ops<T>, f: (real, T) -> T, rs: RunState<T>, eps: real, h: nat, a: Accepted<T>)
    requires rs.dt > 0.0
    requires Control(ops, f, rs, eps, h) == Some(a)
    ensures a.dt > 0.0 && DoubledOrHalved(rs.dt, a.dt, h)
  {
    ControlAccepts(ops, f, rs, eps, h, a);
  }

  /** The increment one pass accepts, alone: the RK4 increment over the
      accepted step. */
  lemma ControlIncrement<T>(ops: Ops<T>, f: (real, T) -> T, rs: RunState<T>, eps: real, h: nat, a: Accepted<T>)
    requires rs.dt > 0.0
    requires Control(ops, f, rs, eps, h) == Some(a)
    ensures a.dt > 0.0 && a.dY == Step4(ops, f, rs.t, rs.Y, f(rs.t, rs.Y), a.dt)
  {
    ControlAccepts(ops, f, rs, eps, h, a);
  }

  /** Sample times are all after the start time and strictly increase. */
  ghost predicate TimesIncrease<T>(s: seq<Sample<T>>, t0: real)
  {
    && (forall i :: 0 <= i < |s| ==> t0 < s[i].time)
    && (forall i, j :: 0 <= i < j < |s| ==> s[i].time < s[j].time)
  }

  lemma {:induction false} RunTimesIncrease<T>(ops: Ops<T>, f: (real, T) -> T, t2: real, eps: real,
                                               rs: RunState<T>, steps: nat, h: nat)
    requires rs.dt > 0.0
    ensures TimesIncrease(Run(ops, f, t2, eps, rs, steps, h).samples, rs.t)
    decreases steps
  {
    if rs.t <= t2 && steps > 0 {
      match Control(ops, f, rs, eps, h)
      case None =>
        RunStalls(ops, f, t2, eps, rs, steps, h);
      case Some(a) =>
        ControlStepSize(ops, f, rs, eps, h, a);
        RunAccepts(ops, f, t2, eps, rs, steps, h, a);
        RunTimesIncrease(ops, f, t2, eps, Advance(ops, rs, a), steps - 1, h);
    }
  }

  /** The loop's exit: every sample but the last is at or before t2; a run
      that ends on its own condition ends on the first sample past t2 (and
      records nothing exactly when it starts past t2); a run cut short by a
      bound has no sample past t2; every sample costs one pass. */
  lemma {:induction false} RunStopsPastT2<T>(ops: Ops<T>, f: (real, T) -> T, t2: real, eps: real,
                                             rs: RunState<T>, steps: nat, h: nat)
    ensures var r := Run(ops, f, t2, eps, rs, steps, h);
      && |r.samples| <= steps
      && (forall i :: 0 <= i < |r.samples| - 1 ==> r.samples[i].time <= t2)
      && (rs.t > t2 ==> r == Solution([], true))
      && (r.finished ==> (|r.samples| == 0 <==> rs.t > t2))
      && (r.finished && |r.samples| > 0 ==> r.samples[|r.samples| - 1].time > t2)
      && (!r.finished ==> forall i :: 0 <= i < |r.samples| ==> r.samples[i].time <= t2)
    decreases steps
  {
    if rs.t <= t2 && steps > 0 {
      match Control(ops, f, rs, eps, h)
      case None =>
        RunStalls(ops, f, t2, eps, rs, steps, h);
      case Some(a) =>
        RunAccepts(ops, f, t2, eps, rs, steps, h, a);
        RunStopsPastT2(ops, f, t2, eps, Advance(ops, rs, a), steps - 1, h);
    }
  }

  /** `next` is reached from (t, Y) by one RK4 step over the elapsed time. */
  ghost predicate RK4From<T>(ops: Ops<T>, f: (real, T) -> T, t: real, Y: T, next: Sample<T>)
  {
    next.value == ops.add(Y, Step4(ops, f, t, Y, f(t, Y), next.time - t))
  }

  /** Each sample is the previous one (the start for the first) plus the RK4
      increment over the time between them. */
  lemma {:induction false} RunFollowsStep4<T>(ops: Ops<T>, f: (real, T) -> T, t2: real, eps: real,
                                              rs: RunState<T>, steps: nat, h: nat)
    requires rs.dt > 0.0
    ensures var s := Run(ops, f, t2, eps, rs, steps, h).samples;
      && (|s| > 0 ==> RK4From(ops, f, rs.t, rs.Y, s[0]))
      && (forall i :: 0 <= i < |s| - 1 ==> RK4From(ops, f, s[i].time, s[i].value, s[i + 1]))
    decreases steps
  {
    if rs.t <= t2 && steps > 0 {
      match Control(ops, f, rs, eps, h)
      case None =>
        RunStalls(ops, f, t2, eps, rs, steps, h);
      case Some(a) =>
        ControlIncrement(ops, f, rs, eps, h, a);
        RunAccepts(ops, f, t2, eps, rs, steps, h, a);
        RunFollowsStep4(ops, f, t2, eps, Advance(ops, rs, a), steps - 1, h);
    }
  }

  /** The time between consecutive samples (from the start for the first,
      whose predecessor step is the incoming dt) is the previous one doubled
      or halved at most `h` times. */
  lemma {:induction false} RunStepSizes<T>(ops: Ops<T>, f: (real, T) -> T, t2: real, eps: real,
                                           rs: RunState<T>, steps: nat, h: nat)
    requires rs.dt > 0.0
    ensures var s := Run(ops, f, t2, eps, rs, steps, h).samples;
      && (|s| > 0 ==> DoubledOrHalved(rs.dt, s[0].time - rs.t, h))
      && (|s| > 1 ==> DoubledOrHalved(s[0].time - rs.t, s[1].time - s[0].time, h))
      && (forall i :: 0 <= i < |s| - 2 ==>
            DoubledOrHalved(s[i + 1].time - s[i].time, s[i + 2].time - s[i + 1].time, h))
    decreases steps
  {
    if rs.t <= t2 && steps > 0 {
      match Control(ops, f, rs, eps, h)
      case None =>
        RunStalls(ops, f, t2, eps, rs, steps, h);
      case Some(a) =>
        ControlStepSize(ops, f, rs, eps, h, a);
        RunAccepts(ops, f, t2, eps, rs, steps, h, a);
        RunStepSizes(ops, f, t2, eps, Advance(ops, rs, a), steps - 1, h);
    }
  }

  /** With every slope the default value, the RK4 increment is the default
      value. */
  lemma Step4ZeroSlope<T(!new)>(ops: Ops<T>, f: (real, T) -> T, t: real, Y: T, dt: real)
    requires ZeroLaws(ops)
    requires forall s, Z :: f(s, Z) == ops.zero
    ensures Step4(ops, f, t, Y, ops.zero, dt) == ops.zero
  {
    var z := ops.zero;
    assert ops.mulLeft(2.0, z) == z;
    assert ops.add(z, z) == z;
  }

  /** With a zero derivative and no previous increment, every pass keeps the
      sentinel, takes dt unchanged and adds nothing: the samples stay at Y
      and are dt apart. */
  lemma {:induction false} RunAtRest<T(!new)>(ops: Ops<T>, f: (real, T) -> T, t2: real, eps: real,
                                              rs: RunState<T>, steps: nat, h: nat)
    requires ZeroLaws(ops)
    requires forall s, Z :: f(s, Z) == ops.zero
    requires rs.dYLast == ops.zero
    ensures var s := Run(ops, f, t2, eps, rs, steps, h).samples;
      && (forall i :: 0 <= i < |s| ==> s[i].value == rs.Y)
      && (|s| > 0 ==> s[0].time == rs.t + rs.dt)
      && (forall i :: 0 <= i < |s| - 1 ==> s[i + 1].time == s[i].time + rs.dt)
    decreases steps
  {
    if rs.t <= t2 && steps > 0 {
      var z := ops.zero;
      Step4ZeroSlope(ops, f, rs.t, rs.Y, rs.dt);
      assert !ops.ne(rs.dYLast, z);
      var a := Accepted(rs.dt, z);
      assert Control(ops, f, rs, eps, h) == Some(a);
      RunAccepts(ops, f, t2, eps, rs, steps, h, a);
      assert Advance(ops, rs, a) == RunState(rs.t + rs.dt, rs.Y, rs.dt, z);
      RunAtRest(ops, f, t2, eps, Advance(ops, rs, a), steps - 1, h);
    }
  }

  /** When `Solve4` has an outcome: the output list is created exactly when
      the capacity expression is valid, so with a positive step and t1 past
      t2 the call returns an empty finished run only while t1 - t2 < 2 dt0,
      and throws beyond that. */
  lemma Solve4Outcome<T>(ops: Ops<T>, f: (real, T) -> T, t1: real, t2: real, dt0: real, X0: T,
                         eps: real, maxSteps: nat, maxHalvings: nat)
    ensures Solve4Spec(ops, f, t1, t2, dt0, X0, eps, maxSteps, maxHalvings).Some? <==> CapacityOk(t1, t2, dt0)
    ensures dt0 > 0.0 && t1 > t2 ==>
              Solve4Spec(ops, f, t1, t2, dt0, X0, eps, maxSteps, maxHalvings)
                == if t1 - t2 < 2.0 * dt0 then Some(Solution([], true)) else None
  {
    if dt0 > 0.0 && t1 > t2 {
      ReversedInterval(t1, t2, dt0);
    }
  }

  /** The first pass of `Solve4` takes no trial step: its sample is X0 plus
      the RK4 increment over exactly dt0, at t1 + dt0. */
  lemma Solve4FirstSample<T(!new)>(ops: Ops<T>, f: (real, T) -> T, t1: real, t2: real, dt0: real, X0: T,
                                   eps: real, maxSteps: nat, maxHalvings: nat, r: Solution<T>)
    requires ZeroLaws(ops)
    requires t1 <= t2 && maxSteps > 0
    requires Solve4Spec(ops, f, t1, t2, dt0, X0, eps, maxSteps, maxHalvings) == Some(r)
    ensures |r.samples| > 0
    ensures r.samples[0] == Sample(t1 + dt0, ops.add(X0, Step4(ops, f, t1, X0, f(t1, X0), dt0)))
  {
    var rs := Start(ops, t1, dt0, X0);
    assert !ops.ne(rs.dYLast, ops.zero);
    var a := Accepted(dt0, Step4(ops, f, t1, X0, f(t1, X0), dt0));
    assert Control(ops, f, rs, eps, maxHalvings) == Some(a);
    RunAccepts(ops, f, t2, eps, rs, maxSteps, maxHalvings, a);
  }

  /** What `Solve4` returns, for a positive initial step, when it returns:
      sample times after t1 and strictly increasing, each sample one RK4 step
      from the previous, only the last sample past t2, and that one only
      when the run finished. */
  lemma Solve4Shape<T>(ops: Ops<T>, f: (real, T) -> T, t1: real, t2: real, dt0: real, X0: T,
                       eps: real, maxSteps: nat, maxHalvings: nat, r: Solution<T>)
    requires dt0 > 0.0
    requires Solve4Spec(ops, f, t1, t2, dt0, X0, eps, maxSteps, maxHalvings) == Some(r)
    ensures TimesIncrease(r.samples, t1)
    ensures |r.samples| > 0 ==> RK4From(ops, f, t1, X0, r.samples[0])
    ensures forall i :: 0 <= i < |r.samples| - 1 ==>
              RK4From(ops, f, r.samples[i].time, r.samples[i].value, r.samples[i + 1])
    ensures forall i :: 0 <= i < |r.samples| - 1 ==> r.samples[i].time <= t2
    ensures r.finished && |r.samples| > 0 ==> r.samples[|r.samples| - 1].time > t2
    ensures !r.finished ==> forall i :: 0 <= i < |r.samples| ==> r.samples[i].time <= t2
  {
    var rs := Start(ops, t1, dt0, X0);
    assert r == Run(ops, f, t2, eps, rs, maxSteps, maxHalvings);
    RunTimesIncrease(ops, f, t2, eps, rs, maxSteps, maxHalvings);
    RunFollowsStep4(ops, f, t2, eps, rs, maxSteps, maxHalvings);
    RunStopsPastT2(ops, f, t2, eps, rs, maxSteps, maxHalvings);
  }

  /** The step sizes `Solve4` takes, for a positive initial step: the first
      is dt0 doubled or halved, and each later one the one before doubled or
      halved, at most `maxHalvings` times. */
  lemma Solve4StepSizes<T>(ops: Ops<T>, f: (real, T) -> T, t1: real, t2: real, dt0: real, X0: T,
                           eps: real, maxSteps: nat, maxHalvings: nat, r: Solution<T>)
    requires dt0 > 0.0
    requires Solve4Spec(ops, f, t1, t2, dt0, X0, eps, maxSteps, maxHalvings) == Some(r)
    ensures |r.samples| > 0 ==> DoubledOrHalved(dt0, r.samples[0].time - t1, maxHalvings)
    ensures |r.samples| > 1 ==>
              DoubledOrHalved(r.samples[0].time - t1, r.samples[1].time - r.samples[0].time, maxHalvings)
    ensures forall i :: 0 <= i < |r.samples| - 2 ==>
              DoubledOrHalved(r.samples[i + 1].time - r.samples[i].time,
                              r.samples[i + 2].time - r.samples[i + 1].time, maxHalvings)
  {
    var rs := Start(ops, t1, dt0, X0);
    assert r == Run(ops, f, t2, eps, rs, maxSteps, maxHalvings);
    RunStepSizes(ops, f, t2, eps, rs, maxSteps, maxHalvings);
  }

  /** `Solve4` on a zero derivative: every sample is X0, dt0 apart from t1. */
  lemma Solve4AtRest<T(!new)>(ops: Ops<T>, f: (real, T) -> T, t1: real, t2: real, dt0: real, X0: T,
                              eps: real, maxSteps: nat, maxHalvings: nat, r: Solution<T>)
    requires ZeroLaws(ops)
    requires forall s, Z :: f(s, Z) == ops.zero
    requires Solve4Spec(ops, f, t1, t2, dt0, X0, eps, maxSteps, maxHalvings) == Some(r)
    ensures forall i :: 0 <= i < |r.samples| ==> r.samples[i].value == X0
    ensures |r.samples| > 0 ==> r.samples[0].time == t1 + dt0
    ensures forall i :: 0 <= i < |r.samples| - 1 ==> r.samples[i + 1].time == r.samples[i].time + dt0
  {
    RunAtRest(ops, f, t2, eps, Start(ops, t1, dt0, X0), maxSteps, maxHalvings);
  }
}
