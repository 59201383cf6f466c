/** What the two integrators share: the time-stamped sample and the number of
    steps derived from the time range (runge_kutta.py:16 and matrix_method.py:19
    compute it the same way). */
module Trajectory {
  import opened Results

  /** One entry of a trajectory: a time and the state at that time. */
  datatype Sample<S> = Sample(time: real, state: S)

  /** Python's `int(x)` on a float: truncation toward zero. */
  function Trunc(x: real): (r: int)
    ensures 0.0 <= x ==> r as real <= x < r as real + 1.0
    ensures x < 0.0 ==> r as real - 1.0 < x <= r as real
  {
    if x >= 0.0 then x.Floor else -((-x).Floor)
  }

  /** How many times the integration loop runs: `n = int((tf - t0) / dt)`
      followed by `for _ in range(n)`, so a negative `n` runs no step. A zero
      step is Python's ZeroDivisionError. */
  function StepsTaken(t0: real, tf: real, dt: real): (r: Result<nat>)
    ensures r.Err? <==> dt == 0.0
    ensures r.Err? ==> r.error == DivisionByZero
    ensures r.Ok? ==>
              var q := (tf - t0) / dt;
              && (0.0 <= q ==> r.value as real <= q < r.value as real + 1.0)
              && (q < 0.0 ==> r.value == 0)
  {
    if dt == 0.0 then Err(DivisionByZero)
    else
      var n := Trunc((tf - t0) / dt);
      Ok(if n < 0 then 0 else n)
  }

  /** With a positive step, no step is taken when the range is shorter than
      one step: the trajectory is only its initial sample. */
  lemma ShortRangeTakesNoStep(t0: real, tf: real, dt: real)
    requires 0.0 < dt
    requires tf - t0 < dt
    ensures StepsTaken(t0, tf, dt) == Ok(0)
  {
  }

  /** With the integer times and step the command line supplies, the step
      count is plain integer division. */
  lemma IntegerTimesDivide(t0: int, tf: int, dt: int)
    requires 0 < dt
    requires t0 <= tf
    ensures StepsTaken(t0 as real, tf as real, dt as real) == Ok((tf - t0) / dt)
  {
    var k := (tf - t0) / dt;
    var m := (tf - t0) % dt;
    assert tf - t0 == k * dt + m && 0 <= m < dt;
    var q := (tf as real - t0 as real) / dt as real;
    assert q == k as real + m as real / dt as real by {
      assert (tf - t0) as real == k as real * dt as real + m as real;
    }
    assert 0.0 <= m as real / dt as real < 1.0;
    var r := StepsTaken(t0 as real, tf as real, dt as real);
    assert r.Ok?;
    assert r.value as real <= q < r.value as real + 1.0;
    assert r.value == k;
  }
}
