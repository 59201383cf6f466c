/** The RK4 call of compute_solutions.py: it hands `bateman_equations` (with
    its default sources a = b = 0) and the pair of equilibrium concentrations
    to the generic RK4 integrator. */
module ComputeSolutions {
  import opened Results
  import opened Parameters
  import opened Linear
  import opened Trajectory
  import opened Bateman
  import opened RungeKutta

  /** The Bateman derivative returns a pair for every pair, so no RK4 stage
      from a pair indexes past the end of an increment. */
  lemma FieldIsLongEnough(p: Params)
    ensures LongEnough(Field(p), 2)
  {
    forall v: seq<real> | |v| == 2
      ensures 2 <= |Field(p)(v)|
    {
      assert Field(p)(v) == ToSeq(Derivative(p, State(v[0], v[1]), 0.0, 0.0));
    }
  }

  /** On the program's own derivative, a step from a pair never fails and is
      the textbook slope form of RK4. */
  lemma FieldStepIsClassical(p: Params, dt: real, y: seq<real>)
    requires |y| == 2
    ensures LongEnough(Field(p), |y|)
    ensures Rk4Step(Field(p), dt, y) == Ok(SlopeStep(Field(p), dt, y))
  {
    FieldIsLongEnough(p);
    Rk4StepIsClassical(Field(p), dt, y);
  }

  /** The RK4 run of the program: from a pair and with a non-zero step it
      always succeeds, every state is a pair, and each state is the textbook
      RK4 step of the one before it. */
  lemma FieldTrajectoryIsClassical(p: Params, y0: seq<real>, t0: real, tf: real, dt: real)
    requires |y0| == 2
    requires dt != 0.0
    ensures Rk4Trajectory(Field(p), y0, t0, tf, dt).Ok?
    ensures var r := Rk4Trajectory(Field(p), y0, t0, tf, dt).value;
            forall i :: 0 <= i < |r| ==> |r[i].state| == 2
    ensures LongEnough(Field(p), 2)
    ensures var r := Rk4Trajectory(Field(p), y0, t0, tf, dt).value;
            forall i :: 0 <= i < |r| - 1 ==> r[i + 1].state == SlopeStep(Field(p), dt, r[i].state)
  {
    FieldIsLongEnough(p);
    var r := Rk4Trajectory(Field(p), y0, t0, tf, dt).value;
    RungeKuttaKeepsLength(Field(p), y0, t0, tf, dt);
    RungeKuttaRecurrence(Field(p), y0, t0, tf, dt);
    forall i | 0 <= i < |r| - 1
      ensures r[i + 1].state == SlopeStep(Field(p), dt, r[i].state)
    {
      FieldStepIsClassical(p, dt, r[i].state);
    }
  }
}
