/** The generic fixed-step integrator of runge_kutta.py: the classical
    four-stage Runge-Kutta scheme over states that are Python lists of reals,
    for any derivative function. */
module RungeKutta {
  import opened Results
  import opened Trajectory
  import opened Linear

  /** A derivative function that, on states of n components, never returns
      fewer than n, so no stage of a step from such a state indexes past the
      end of an increment. */
  ghost predicate LongEnough(f: seq<real> -> seq<real>, n: nat) {
    forall v: seq<real> :: |v| == n ==> n <= |f(v)|
  }

  /** `[dt * dy for dy in f(v)]`: the increment of one stage. */
  function Increment(f: seq<real> -> seq<real>, dt: real, v: seq<real>): (r: seq<real>)
    ensures |r| == |f(v)|
    ensures forall j :: 0 <= j < |r| ==> r[j] == dt * f(v)[j]
  {
    var fv := f(v);
    seq(|fv|, j requires 0 <= j < |fv| => dt * fv[j])
  }

  /** `[y[j] + d[j] / k for j in range(len(y))]`: the point where the next
      stage evaluates the derivative. */
  function Offset(y: seq<real>, d: seq<real>, k: real): (r: seq<real>)
    requires |y| <= |d|
    requires k != 0.0
    ensures |r| == |y|
    ensures forall j :: 0 <= j < |y| ==> r[j] == y[j] + d[j] / k
  {
    seq(|y|, j requires 0 <= j < |y| => y[j] + d[j] / k)
  }

  /** One step of size dt from y. A stage whose increment is shorter than y
      makes the Python list comprehensions raise IndexError. */
  function Rk4Step(f: seq<real> -> seq<real>, dt: real, y: seq<real>): (r: Result<seq<real>>)
    ensures r.Ok? ==> |r.value| == |y|
    ensures r.Err? ==> r.error == ShortDerivative
    ensures LongEnough(f, |y|) ==> r.Ok?
  {
    var d1 := Increment(f, dt, y);
    if |d1| < |y| then Err(ShortDerivative) else
    var d2 := Increment(f, dt, Offset(y, d1, 2.0));
    if |d2| < |y| then Err(ShortDerivative) else
    var d3 := Increment(f, dt, Offset(y, d2, 2.0));
    if |d3| < |y| then Err(ShortDerivative) else
    var d4 := Increment(f, dt, Offset(y, d3, 1.0));
    if |d4| < |y| then Err(ShortDerivative) else
    Ok(seq(|y|, j requires 0 <= j < |y| =>
             y[j] + (d1[j] + 2.0 * d2[j] + 2.0 * d3[j] + d4[j]) / 6.0))
  }

  /** The k samples after (t, y): each one step later than the previous. */
  function Rk4Steps(f: seq<real> -> seq<real>, dt: real, t: real, y: seq<real>, k: nat)
    : (r: Result<seq<Sample<seq<real>>>>)
    ensures r.Ok? ==> |r.value| == k
    ensures r.Ok? ==> forall i :: 0 <= i < k ==> r.value[i].time == t + (i + 1) as real * dt
    ensures LongEnough(f, |y|) ==> r.Ok?
    decreases k
  {
    if k == 0 then Ok([])
    else
      var y' :- Rk4Step(f, dt, y);
      var rest :- Rk4Steps(f, dt, t + dt, y', k - 1);
      Ok([Sample(t + dt, y')] + rest)
  }

  /** `runge_kutta(f, y0, t0, tf, dt)`: the initial sample followed by one
      sample per step. Time advances by exactly dt per step. */
  function Rk4Trajectory(f: seq<real> -> seq<real>, y0: seq<real>, t0: real, tf: real, dt: real)
    : (r: Result<seq<Sample<seq<real>>>>)
    ensures dt == 0.0 ==> r == Err(DivisionByZero)
    ensures dt != 0.0 && LongEnough(f, |y0|) ==> r.Ok?
    ensures r.Ok? ==> StepsTaken(t0, tf, dt).Ok? && |r.value| == StepsTaken(t0, tf, dt).value + 1
    ensures r.Ok? ==> r.value[0] == Sample(t0, y0)
    ensures r.Ok? ==> forall i :: 0 <= i < |r.value| ==> r.value[i].time == t0 + i as real * dt
  {
    var n :- StepsTaken(t0, tf, dt);
    var rest :- Rk4Steps(f, dt, t0, y0, n);
    Ok([Sample(t0, y0)] + rest)
  }

  /** A range shorter than one positive step yields only the initial sample. */
  lemma ShortRangeIsInitialSample(f: seq<real> -> seq<real>, y0: seq<real>, t0: real, tf: real, dt: real)
    requires 0.0 < dt
    requires tf - t0 < dt
    ensures Rk4Trajectory(f, y0, t0, tf, dt) == Ok([Sample(t0, y0)])
  {
    ShortRangeTakesNoStep(t0, tf, dt);
    assert Rk4Steps(f, dt, t0, y0, 0) == Ok([]);
    assert [Sample(t0, y0)] + [] == [Sample(t0, y0)];
  }

  /** The classical RK4 step written with slopes instead of increments:
      k1 = f(y), k2 = f(y + dt·k1/2), k3 = f(y + dt·k2/2), k4 = f(y + dt·k3),
      y' = y + dt·(k1 + 2·k2 + 2·k3 + k4)/6. */
  function SlopeStep(f: seq<real> -> seq<real>, dt: real, y: seq<real>): seq<real>
    requires LongEnough(f, |y|)
  {
    var k1 := f(y);
    var k2 := f(seq(|y|, j requires 0 <= j < |y| => y[j] + dt * k1[j] / 2.0));
    var k3 := f(seq(|y|, j requires 0 <= j < |y| => y[j] + dt * k2[j] / 2.0));
    var k4 := f(seq(|y|, j requires 0 <= j < |y| => y[j] + dt * k3[j]));
    seq(|y|, j requires 0 <= j < |y| =>
          y[j] + dt * (k1[j] + 2.0 * k2[j] + 2.0 * k3[j] + k4[j]) / 6.0)
  }

  /** The increment form of runge_kutta.py computes the classical step. */
  lemma Rk4StepIsClassical(f: seq<real> -> seq<real>, dt: real, y: seq<real>)
    requires LongEnough(f, |y|)
    ensures Rk4Step(f, dt, y) == Ok(SlopeStep(f, dt, y))
  {
    var k1 := f(y);
    var d1 := Increment(f, dt, y);
    var p2 := seq(|y|, j requires 0 <= j < |y| => y[j] + dt * k1[j] / 2.0);
    assert Offset(y, d1, 2.0) == p2;
    var k2 := f(p2);
    var d2 := Increment(f, dt, p2);
    var p3 := seq(|y|, j requires 0 <= j < |y| => y[j] + dt * k2[j] / 2.0);
    assert Offset(y, d2, 2.0) == p3;
    var k3 := f(p3);
    var d3 := Increment(f, dt, p3);
    var p4 := seq(|y|, j requires 0 <= j < |y| => y[j] + dt * k3[j]);
    assert Offset(y, d3, 1.0) == p4;
    var k4 := f(p4);
    var d4 := Increment(f, dt, p4);
    var r := Rk4Step(f, dt, y).value;
    var c := SlopeStep(f, dt, y);
    forall j | 0 <= j < |y|
      ensures r[j] == c[j]
    {
      assert r[j] == y[j] + (d1[j] + 2.0 * d2[j] + 2.0 * d3[j] + d4[j]) / 6.0;
      assert d1[j] + 2.0 * d2[j] + 2.0 * d3[j] + d4[j]
             == dt * (k1[j] + 2.0 * k2[j] + 2.0 * k3[j] + k4[j]);
    }
    assert |r| == |c|;
    assert r == c;
  }

  /** Each sample of `Rk4Steps` is one step from the one before it. */
  lemma {:induction false} StepsFollowRecurrence(f: seq<real> -> seq<real>, dt: real, t: real, y: seq<real>, k: nat)
    requires Rk4Steps(f, dt, t, y, k).Ok?
    ensures var s := Rk4Steps(f, dt, t, y, k).value;
            && (0 < k ==> Rk4Step(f, dt, y) == Ok(s[0].state))
            && forall i :: 0 <= i < k - 1 ==> Rk4Step(f, dt, s[i].state) == Ok(s[i + 1].state)
    decreases k
  {
    if 0 < k {
      var y' := Rk4Step(f, dt, y).value;
      StepsFollowRecurrence(f, dt, t + dt, y', k - 1);
    }
  }

  /** Consecutive states of a trajectory are related by one RK4 step. */
  lemma RungeKuttaRecurrence(f: seq<real> -> seq<real>, y0: seq<real>, t0: real, tf: real, dt: real)
    requires Rk4Trajectory(f, y0, t0, tf, dt).Ok?
    ensures var r := Rk4Trajectory(f, y0, t0, tf, dt).value;
            forall i :: 0 <= i < |r| - 1 ==> Rk4Step(f, dt, r[i].state) == Ok(r[i + 1].state)
  {
    var n := StepsTaken(t0, tf, dt).value;
    StepsFollowRecurrence(f, dt, t0, y0, n);
  }

  /** Every state of a trajectory has as many components as the initial one. */
  lemma {:induction false} RungeKuttaKeepsLength(f: seq<real> -> seq<real>, y0: seq<real>, t0: real, tf: real, dt: real)
    requires Rk4Trajectory(f, y0, t0, tf, dt).Ok?
    ensures var r := Rk4Trajectory(f, y0, t0, tf, dt).value;
            forall i :: 0 <= i < |r| ==> |r[i].state| == |y0|
  {
    var r := Rk4Trajectory(f, y0, t0, tf, dt).value;
    RungeKuttaRecurrence(f, y0, t0, tf, dt);
    var i := 0;
    while i < |r|
      invariant 0 <= i <= |r|
      invariant forall j :: 0 <= j < i ==> |r[j].state| == |y0|
    {
      if 0 < i {
        assert Rk4Step(f, dt, r[i - 1].state) == Ok(r[i].state);
      }
      i := i + 1;
    }
  }

  /** The zero vector with n components. */
  function Zeros(n: nat): seq<real> {
    seq(n, _ => 0.0)
  }

  /** A derivative that is always zero leaves the state where it is. */
  lemma ZeroFieldStepIsIdentity(f: seq<real> -> seq<real>, dt: real, y: seq<real>)
    requires forall v: seq<real> :: f(v) == Zeros(|v|)
    ensures Rk4Step(f, dt, y) == Ok(y)
  {
    var r := Rk4Step(f, dt, y);
    assert r.Ok? by {
      assert LongEnough(f, |y|);
    }
    assert r.value == y;
  }

  /** A derivative that is always zero gives a trajectory whose every state is
      the initial one. */
  lemma {:induction false} ZeroFieldStaysPut(f: seq<real> -> seq<real>, y0: seq<real>, t0: real, tf: real, dt: real)
    requires forall v: seq<real> :: f(v) == Zeros(|v|)
    requires dt != 0.0
    ensures Rk4Trajectory(f, y0, t0, tf, dt).Ok?
    ensures var r := Rk4Trajectory(f, y0, t0, tf, dt).value;
            forall i :: 0 <= i < |r| ==> r[i].state == y0
  {
    assert LongEnough(f, |y0|);
    var r := Rk4Trajectory(f, y0, t0, tf, dt).value;
    RungeKuttaRecurrence(f, y0, t0, tf, dt);
    var i := 0;
    while i < |r|
      invariant 0 <= i <= |r|
      invariant forall j :: 0 <= j < i ==> r[j].state == y0
    {
      if 0 < i {
        ZeroFieldStepIsIdentity(f, dt, r[i - 1].state);
      }
      i := i + 1;
    }
  }

  /** A derivative function that acts on pairs as multiplication by a. */
  ghost predicate ActsAs(f: seq<real> -> seq<real>, a: Mat2) {
    forall u: State :: f(ToSeq(u)) == ToSeq(Apply(a, u))
  }

  lemma IncrementOfLinear(f: seq<real> -> seq<real>, a: Mat2, h: real, u: State)
    requires ActsAs(f, a)
    ensures Increment(f, h, ToSeq(u)) == ToSeq(Scale(h, Apply(a, u)))
  {
    var fu := f(ToSeq(u));
    assert fu == ToSeq(Apply(a, u));
    var r := Increment(f, h, ToSeq(u));
    assert |r| == 2;
    assert r[0] == h * fu[0] && r[1] == h * fu[1];
    assert r == [r[0], r[1]];
    var z := Scale(h, Apply(a, u));
    assert r[0] == z.i && r[1] == z.xe;
    assert ToSeq(z) == [z.i, z.xe];
  }

  lemma OffsetOfPairs(u: State, w: State, k: real)
    requires k != 0.0
    ensures Offset(ToSeq(u), ToSeq(w), k) == ToSeq(Add(u, Scale(1.0 / k, w)))
  {
    var r := Offset(ToSeq(u), ToSeq(w), k);
    assert r[0] == u.i + w.i / k && r[1] == u.xe + w.xe / k;
    assert w.i / k == (1.0 / k) * w.i && w.xe / k == (1.0 / k) * w.xe;
    assert r == [r[0], r[1]];
    var z := Add(u, Scale(1.0 / k, w));
    assert r[0] == z.i && r[1] == z.xe;
    assert ToSeq(z) == [z.i, z.xe];
  }

  /** The same four stages on a pair, for the linear derivative y' = x·y/h:
      each stage increment is x applied to the stage point. */
  function LinearStages(x: Mat2, s: State): State {
    var e1 := Apply(x, s);
    var e2 := Apply(x, Add(s, Scale(1.0 / 2.0, e1)));
    var e3 := Apply(x, Add(s, Scale(1.0 / 2.0, e2)));
    var e4 := Apply(x, Add(s, e3));
    State(s.i + (e1.i + 2.0 * e2.i + 2.0 * e3.i + e4.i) / 6.0,
          s.xe + (e1.xe + 2.0 * e2.xe + 2.0 * e3.xe + e4.xe) / 6.0)
  }

  /** The stages of a linear step add up to the degree-4 Taylor polynomial. */
  lemma LinearStagesAreTaylor(x: Mat2, s: State)
    ensures LinearStages(x, s) == Apply(Taylor4(x), s)
  {
    var w1 := Apply(x, s);
    var w2 := Apply(x, w1);
    var w3 := Apply(x, w2);
    var w4 := Apply(x, w3);
    var e1 := Apply(x, s);
    var e2 := Apply(x, Add(s, Scale(1.0 / 2.0, e1)));
    ApplyLinear(x, s, 1.0 / 2.0, e1);
    assert e2 == Add(w1, Scale(1.0 / 2.0, w2));
    var e3 := Apply(x, Add(s, Scale(1.0 / 2.0, e2)));
    ApplyLinear(x, s, 1.0 / 2.0, e2);
    ApplyLinear(x, w1, 1.0 / 2.0, w2);
    assert e3 == Add(w1, Scale(1.0 / 2.0, Add(w2, Scale(1.0 / 2.0, w3))));
    var e4 := Apply(x, Add(s, e3));
    assert Add(s, Scale(1.0, e3)) == Add(s, e3);
    ApplyLinear(x, s, 1.0, e3);
    ApplyLinear(x, w1, 1.0 / 2.0, Add(w2, Scale(1.0 / 2.0, w3)));
    ApplyLinear(x, w2, 1.0 / 2.0, w3);
    assert e4 == Add(w1, Add(w2, Scale(1.0 / 2.0, Add(w3, Scale(1.0 / 2.0, w4)))));
    ApplyTaylor4(x, s);
  }

  /** Run on a pair, the list-based step of a linear derivative computes
      the same stages as `LinearStages`. */
  lemma LinearStepOnPairs(f: seq<real> -> seq<real>, a: Mat2, h: real, s: State)
    requires ActsAs(f, a)
    ensures Rk4Step(f, h, ToSeq(s)) == Ok(ToSeq(LinearStages(MatScale(h, a), s)))
  {
    var x := MatScale(h, a);
    forall u: State ensures Scale(h, Apply(a, u)) == Apply(x, u) {
      ApplyMatScale(h, a, u);
    }
    var y := ToSeq(s);
    IncrementOfLinear(f, a, h, s);
    var e1 := Apply(x, s);
    assert Increment(f, h, y) == ToSeq(e1);
    OffsetOfPairs(s, e1, 2.0);
    var u2 := Add(s, Scale(1.0 / 2.0, e1));
    IncrementOfLinear(f, a, h, u2);
    var e2 := Apply(x, u2);
    OffsetOfPairs(s, e2, 2.0);
    var u3 := Add(s, Scale(1.0 / 2.0, e2));
    IncrementOfLinear(f, a, h, u3);
    var e3 := Apply(x, u3);
    OffsetOfPairs(s, e3, 1.0);
    // the last stage point is y + d3, with no halving
    assert Add(s, Scale(1.0 / 1.0, e3)) == Add(s, e3);
    var u4 := Add(s, e3);
    IncrementOfLinear(f, a, h, u4);
    var e4 := Apply(x, u4);
    var r := Rk4Step(f, h, y);
    assert r.Ok?;
    var z := LinearStages(x, s);
    assert r.value[0] == z.i;
    assert r.value[1] == z.xe;
    assert r.value == ToSeq(z);
  }

  /** For a linear derivative y' = a·y, one RK4 step of size h multiplies the
      state by the degree-4 Taylor polynomial of h·a. */
  lemma LinearStepIsTaylor(f: seq<real> -> seq<real>, a: Mat2, h: real, s: State)
    requires ActsAs(f, a)
    ensures Rk4Step(f, h, ToSeq(s)) == Ok(ToSeq(Apply(Taylor4(MatScale(h, a)), s)))
  {
    LinearStepOnPairs(f, a, h, s);
    LinearStagesAreTaylor(MatScale(h, a), s);
  }
}
