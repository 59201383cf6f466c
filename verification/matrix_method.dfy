/** The matrix-exponential propagator of matrix_method.py. The matrix
    exponential itself (scipy's `expm`) is a parameter: the model applies it
    once to dt·A and then iterates the matrix-vector product. */
module MatrixMethod {
  import opened Results
  import opened Parameters
  import opened Linear
  import opened Trajectory
  import opened Bateman
  import opened RungeKutta

  /** The matrix of the unforced iodine/xenon system. */
  function SystemMatrix(p: Params): (m: Mat2)
    ensures forall y: State :: Apply(m, y) == Derivative(p, y, 0.0, 0.0)
    // the eigenvalues are -lambdaI and -lambdaXe
    ensures m.a + m.d == -(p.lambdaI + p.lambdaXe) && m.a * m.d - m.b * m.c == p.lambdaI * p.lambdaXe
  {
    Mat2(-p.lambdaI, 0.0, p.lambdaI, -p.lambdaXe)
  }

  /** The system matrix reproduces the Bateman derivative without sources. */
  lemma SystemMatrixReproducesDerivative(p: Params, y: State)
    ensures Apply(SystemMatrix(p), y) == Derivative(p, y, 0.0, 0.0)
  {
  }

  /** The derivative handed to the RK4 integrator is multiplication by the
      system matrix. */
  lemma FieldActsAsSystemMatrix(p: Params)
    ensures ActsAs(Field(p), SystemMatrix(p))
  {
    forall u: State ensures Field(p)(ToSeq(u)) == ToSeq(Apply(SystemMatrix(p), u)) {
      SystemMatrixReproducesDerivative(p, u);
    }
  }

  /** The k samples after (t, y), each the previous state multiplied by m. */
  function MatrixSteps(m: Mat2, dt: real, t: real, y: State, k: nat): (r: seq<Sample<State>>)
    ensures |r| == k
    ensures forall i :: 0 <= i < k ==> r[i].time == t + (i + 1) as real * dt
    decreases k
  {
    if k == 0 then []
    else
      var y' := Apply(m, y);
      [Sample(t + dt, y')] + MatrixSteps(m, dt, t + dt, y', k - 1)
  }

  /** `matrix_method(y0, t0, tf, dt)` with `expm` standing for the matrix
      exponential. */
  function MatrixTrajectory(expm: Mat2 -> Mat2, p: Params, y0: State, t0: real, tf: real, dt: real)
    : (r: Result<seq<Sample<State>>>)
    ensures r.Err? <==> dt == 0.0
    ensures r.Err? ==> r.error == DivisionByZero
    ensures r.Ok? ==> StepsTaken(t0, tf, dt).Ok? && |r.value| == StepsTaken(t0, tf, dt).value + 1
    ensures r.Ok? ==> r.value[0] == Sample(t0, y0)
    ensures r.Ok? ==> forall i :: 0 <= i < |r.value| ==> r.value[i].time == t0 + i as real * dt
  {
    var n :- StepsTaken(t0, tf, dt);
    var m := expm(MatScale(dt, SystemMatrix(p)));
    Ok([Sample(t0, y0)] + MatrixSteps(m, dt, t0, y0, n))
  }

  /** The i-th sample after (t, y) holds m^(i+1)·y. */
  lemma {:induction false} StepsArePowers(m: Mat2, dt: real, t: real, y: State, k: nat)
    ensures var r := MatrixSteps(m, dt, t, y, k);
            forall i :: 0 <= i < k ==> r[i].state == Apply(Pow(m, i + 1), y)
    decreases k
  {
    if 0 < k {
      var r := MatrixSteps(m, dt, t, y, k);
      var y' := Apply(m, y);
      StepsArePowers(m, dt, t + dt, y', k - 1);
      forall i | 0 <= i < k
        ensures r[i].state == Apply(Pow(m, i + 1), y)
      {
        ApplyMul(m, Pow(m, i), y);
        if i == 0 {
          assert Apply(Identity, y) == y;
        } else {
          assert r[i] == MatrixSteps(m, dt, t + dt, y', k - 1)[i - 1];
          assert r[i].state == Apply(Pow(m, i), y');
          ApplyPowShift(m, i, y);
        }
      }
    }
  }

  /** The i-th state of the trajectory is M^i·y0, with M = expm(dt·A)
      computed once. */
  lemma MatrixStatesArePowers(expm: Mat2 -> Mat2, p: Params, y0: State, t0: real, tf: real, dt: real)
    requires dt != 0.0
    ensures var r := MatrixTrajectory(expm, p, y0, t0, tf, dt);
            var m := expm(MatScale(dt, SystemMatrix(p)));
            && r.Ok?
            && forall i :: 0 <= i < |r.value| ==> r.value[i].state == Apply(Pow(m, i), y0)
  {
    var m := expm(MatScale(dt, SystemMatrix(p)));
    var n := StepsTaken(t0, tf, dt).value;
    StepsArePowers(m, dt, t0, y0, n);
    var r := MatrixTrajectory(expm, p, y0, t0, tf, dt).value;
    assert r == [Sample(t0, y0)] + MatrixSteps(m, dt, t0, y0, n);
    forall i | 0 <= i < |r|
      ensures r[i].state == Apply(Pow(m, i), y0)
    {
      if i == 0 {
        assert Apply(Identity, y0) == y0;
      } else {
        assert r[i] == MatrixSteps(m, dt, t0, y0, n)[i - 1];
      }
    }
  }

  /** Scaling the initial state scales every state of the trajectory by the
      same factor and leaves the times alone. */
  lemma MatrixTrajectoryIsLinear(expm: Mat2 -> Mat2, p: Params, c: real, y0: State, t0: real, tf: real, dt: real)
    requires dt != 0.0
    ensures MatrixTrajectory(expm, p, y0, t0, tf, dt).Ok?
    ensures MatrixTrajectory(expm, p, Scale(c, y0), t0, tf, dt).Ok?
    ensures |MatrixTrajectory(expm, p, Scale(c, y0), t0, tf, dt).value|
            == |MatrixTrajectory(expm, p, y0, t0, tf, dt).value|
    ensures forall i :: 0 <= i < |MatrixTrajectory(expm, p, y0, t0, tf, dt).value| ==>
              && MatrixTrajectory(expm, p, Scale(c, y0), t0, tf, dt).value[i].time
                 == MatrixTrajectory(expm, p, y0, t0, tf, dt).value[i].time
              && MatrixTrajectory(expm, p, Scale(c, y0), t0, tf, dt).value[i].state
                 == Scale(c, MatrixTrajectory(expm, p, y0, t0, tf, dt).value[i].state)
  {
    var m := expm(MatScale(dt, SystemMatrix(p)));
    MatrixStatesArePowers(expm, p, y0, t0, tf, dt);
    MatrixStatesArePowers(expm, p, Scale(c, y0), t0, tf, dt);
    forall i | 0 <= i < |MatrixTrajectory(expm, p, y0, t0, tf, dt).value|
      ensures MatrixTrajectory(expm, p, Scale(c, y0), t0, tf, dt).value[i].state
              == Scale(c, MatrixTrajectory(expm, p, y0, t0, tf, dt).value[i].state)
    {
      ApplyScale(Pow(m, i), c, y0);
    }
  }

  /** A zero initial state stays zero. */
  lemma ZeroStateStaysZero(expm: Mat2 -> Mat2, p: Params, t0: real, tf: real, dt: real)
    requires dt != 0.0
    ensures MatrixTrajectory(expm, p, Zero, t0, tf, dt).Ok?
    ensures forall i :: 0 <= i < |MatrixTrajectory(expm, p, Zero, t0, tf, dt).value| ==>
              MatrixTrajectory(expm, p, Zero, t0, tf, dt).value[i].state == Zero
  {
    assert Scale(0.0, Zero) == Zero;
    MatrixTrajectoryIsLinear(expm, p, 0.0, Zero, t0, tf, dt);
  }

  /** Stepping a linear derivative with RK4 and multiplying by the Taylor
      polynomial of dt·a produce the same states, sample by sample. */
  lemma {:induction false} StepsAgree(f: seq<real> -> seq<real>, a: Mat2, dt: real, t: real, s: State, k: nat)
    requires ActsAs(f, a)
    ensures var rs := Rk4Steps(f, dt, t, ToSeq(s), k);
            var ms := MatrixSteps(Taylor4(MatScale(dt, a)), dt, t, s, k);
            && rs.Ok?
            && forall i :: 0 <= i < k ==> rs.value[i].state == ToSeq(ms[i].state)
    decreases k
  {
    if 0 < k {
      var m := Taylor4(MatScale(dt, a));
      LinearStepIsTaylor(f, a, dt, s);
      var s' := Apply(m, s);
      StepsAgree(f, a, dt, t + dt, s', k - 1);
      var rs := Rk4Steps(f, dt, t, ToSeq(s), k);
      assert rs.Ok?;
      var ms := MatrixSteps(m, dt, t, s, k);
      forall i | 0 <= i < k
        ensures rs.value[i].state == ToSeq(ms[i].state)
      {
        if 0 < i {
          assert rs.value[i] == Rk4Steps(f, dt, t + dt, ToSeq(s'), k - 1).value[i - 1];
          assert ms[i] == MatrixSteps(m, dt, t + dt, s', k - 1)[i - 1];
        }
      }
    }
  }

  /** When the matrix exponential is replaced by its degree-4 Taylor
      polynomial, the matrix method and RK4 on the Bateman derivative give
      the same trajectory: same length, same times, same states. */
  lemma TaylorMatrixMatchesRungeKutta(p: Params, s0: State, t0: real, tf: real, dt: real)
    requires dt != 0.0
    ensures var mm := MatrixTrajectory(Taylor4, p, s0, t0, tf, dt);
            var rk := Rk4Trajectory(Field(p), ToSeq(s0), t0, tf, dt);
            && mm.Ok? && rk.Ok?
            && |mm.value| == |rk.value|
            && forall i :: 0 <= i < |rk.value| ==>
                 rk.value[i].time == mm.value[i].time && rk.value[i].state == ToSeq(mm.value[i].state)
  {
    var n := StepsTaken(t0, tf, dt).value;
    FieldActsAsSystemMatrix(p);
    StepsAgree(Field(p), SystemMatrix(p), dt, t0, s0, n);
  }
}
