/** The iodine-135 / xenon-135 model of bateman_eq.py: the decay/production
    derivative, the equilibrium initial conditions, the poisoning transform,
    the analytical xenon solution and the relative errors. */
module Bateman {
  import opened Results
  import opened Parameters
  import opened Linear

  // ---------------------------------------------------------------------------
  // Decay/production model
  // ---------------------------------------------------------------------------

  /** The Bateman equations: the derivative of (I, Xe) when iodine is produced
      at rate `a` and xenon gains the net rate `b` besides decay. */
  function Derivative(p: Params, y: State, a: real, b: real): (r: State)
    // iodine is produced at rate a and lost only by its own decay
    ensures r.i + p.lambdaI * y.i == a
    // iodine decay feeds xenon, so the total changes only by the sources
    // less the xenon decay
    ensures r.i + r.xe == a + b - p.lambdaXe * y.xe
  {
    State(a - p.lambdaI * y.i, p.lambdaI * y.i - p.lambdaXe * y.xe + b)
  }

  /** Without sources the derivative is linear in the state. */
  lemma UnforcedDerivativeIsLinear(p: Params, c: real, y1: State, y2: State)
    ensures Derivative(p, Add(Scale(c, y1), y2), 0.0, 0.0)
         == Add(Scale(c, Derivative(p, y1, 0.0, 0.0)), Derivative(p, y2, 0.0, 0.0))
  {
  }

  /** The sources only shift the unforced derivative: the model is affine. */
  lemma SourcesShiftDerivative(p: Params, y: State, a: real, b: real)
    ensures Derivative(p, y, a, b) == Add(Derivative(p, y, 0.0, 0.0), State(a, b))
  {
  }

  /** The derivative as the generic integrator receives it: a function on
      Python lists, called with the default sources a = b = 0. A list that is
      not a pair has no derivative (the Python unpacking raises); the model
      answers with an empty list, which the integrator reports as an error
      for every non-empty state. */
  function Field(p: Params): (f: seq<real> -> seq<real>)
    ensures forall u: State :: f(ToSeq(u)) == ToSeq(Derivative(p, u, 0.0, 0.0))
    ensures forall y: seq<real> :: |y| != 2 ==> f(y) == []
  {
    y => if |y| == 2 then ToSeq(Derivative(p, State(y[0], y[1]), 0.0, 0.0)) else []
  }

  // ---------------------------------------------------------------------------
  // Equilibrium initial conditions
  // ---------------------------------------------------------------------------

  /** Fission production of iodine at flux fraction `flux`. */
  function IodineSource(p: Params, flux: real): real {
    p.gammaI * p.sigmaF * flux * p.phi
  }

  /** Fission production of xenon minus its burn-up by neutron absorption,
      for the candidate xenon concentration `xe0`. */
  function XenonSource(p: Params, flux: real, xe0: real): real {
    p.gammaXe * p.sigmaF * flux * p.phi - p.sigmaAXe * xe0 * flux * p.phi
  }

  /** The residual whose root is the equilibrium: the derivative driven by
      the flux-scaled sources, the xenon burn-up depending on the candidate. */
  function Residual(p: Params, flux: real, s: State): (r: State)
    // iodine: fission production balanced against decay
    ensures r.i == IodineSource(p, flux) - p.lambdaI * s.i
    // xenon: direct fission yield plus iodine decay, against decay and burn-up
    ensures r.xe == p.gammaXe * p.sigmaF * flux * p.phi + p.lambdaI * s.i - XenonRemoval(p, flux) * s.xe
  {
    Derivative(p, s, IodineSource(p, flux), XenonSource(p, flux, s.xe))
  }

  /** Total xenon removal rate at flux fraction `flux`: decay plus burn-up. */
  function XenonRemoval(p: Params, flux: real): real {
    p.lambdaXe + p.sigmaAXe * flux * p.phi
  }

  /** The determinant of the residual's linear part. */
  function Determinant(p: Params, flux: real): real {
    p.lambdaI * XenonRemoval(p, flux)
  }

  /** The residual is affine in the candidate: a fixed matrix applied to it
      plus a constant, and that matrix's determinant is `Determinant`. */
  lemma ResidualIsAffine(p: Params, flux: real, s: State)
    ensures var m := Mat2(-p.lambdaI, 0.0, p.lambdaI, -XenonRemoval(p, flux));
            && Residual(p, flux, s)
               == Add(Apply(m, s), State(IodineSource(p, flux), p.gammaXe * p.sigmaF * flux * p.phi))
            && m.a * m.d - m.b * m.c == Determinant(p, flux)
  {
  }

  /** The equilibrium search: the unique root of the residual, in closed form.
      When the residual's linear part is singular there is no unique root and
      the search fails explicitly. */
  function InitialConditions(p: Params, flux: real): (r: Result<State>)
    ensures r.Err? <==> Determinant(p, flux) == 0.0
    ensures r.Err? ==> r.error == NoUniqueRoot
    ensures r.Ok? ==> Residual(p, flux, r.value) == Zero
  {
    if Determinant(p, flux) == 0.0 then Err(NoUniqueRoot)
    else
      var i0 := IodineSource(p, flux) / p.lambdaI;
      var xe0 := (p.gammaI + p.gammaXe) * p.sigmaF * flux * p.phi / XenonRemoval(p, flux);
      assert p.lambdaI * i0 == IodineSource(p, flux);
      assert XenonRemoval(p, flux) * xe0 == (p.gammaI + p.gammaXe) * p.sigmaF * flux * p.phi;
      Ok(State(i0, xe0))
  }

  /** Every root of the residual is the one `InitialConditions` returns. */
  lemma EquilibriumIsUnique(p: Params, flux: real, s: State)
    requires Determinant(p, flux) != 0.0
    requires Residual(p, flux, s) == Zero
    ensures InitialConditions(p, flux) == Ok(s)
  {
    var r := InitialConditions(p, flux).value;
    var x := XenonRemoval(p, flux);
    assert p.lambdaI != 0.0 && x != 0.0;
    assert p.lambdaI * s.i == IodineSource(p, flux);
    assert p.lambdaI * r.i == IodineSource(p, flux);
    assert s.i == r.i;
    assert x * s.xe == (p.gammaI + p.gammaXe) * p.sigmaF * flux * p.phi;
    assert x * r.xe == (p.gammaI + p.gammaXe) * p.sigmaF * flux * p.phi;
    assert s.xe == r.xe;
  }

  /** A singular residual has no unique root: next to any root there is
      another one, so the search has nothing unique to return. */
  lemma SingularHasNoUniqueRoot(p: Params, flux: real, s: State)
    requires Determinant(p, flux) == 0.0
    requires Residual(p, flux, s) == Zero
    ensures exists s': State :: s' != s && Residual(p, flux, s') == Zero
  {
    if p.lambdaI == 0.0 {
      var s' := State(s.i + 1.0, s.xe);
      assert Residual(p, flux, s') == Residual(p, flux, s);
    } else {
      assert XenonRemoval(p, flux) == 0.0;
      var s' := State(s.i, s.xe + 1.0);
      assert XenonRemoval(p, flux) * s'.xe == 0.0 == XenonRemoval(p, flux) * s.xe;
      assert Residual(p, flux, s') == Residual(p, flux, s);
    }
  }

  /** With valid constants the equilibrium exists at every non-negative flux,
      is strictly positive for a positive flux and zero at zero flux. */
  lemma EquilibriumIsPositive(p: Params, flux: real)
    requires Valid(p)
    requires 0.0 <= flux
    ensures InitialConditions(p, flux).Ok?
    ensures 0.0 < flux ==> (0.0 < InitialConditions(p, flux).value.i
                            && 0.0 < InitialConditions(p, flux).value.xe)
    ensures flux == 0.0 ==> InitialConditions(p, flux).value == Zero
  {
  }

  // ---------------------------------------------------------------------------
  // Poisoning
  // ---------------------------------------------------------------------------

  /** `calculate_rho(Xe)`: the poisoning caused by a xenon concentration.
      The concentration is always a numpy float, so a zero denominator gives
      numpy's inf/nan instead of an exception: an undefined value. */
  function Rho(p: Params, xe: real): (r: Option<real>)
    ensures r.Some? <==> p.ni * p.sigmaF != 0.0
    ensures r.Some? ==> r.value * (p.ni * p.sigmaF) == p.sigmaAXe * xe
  {
    if p.ni * p.sigmaF == 0.0 then None else Some(p.sigmaAXe * xe / (p.ni * p.sigmaF))
  }

  /** The xenon concentration that causes a given poisoning. */
  function XeFromRho(p: Params, rho: real): real
    requires p.sigmaAXe != 0.0
  {
    rho * (p.ni * p.sigmaF) / p.sigmaAXe
  }

  /** The poisoning transform and its inverse undo each other. */
  lemma RhoRoundTrip(p: Params, xe: real, rho: real)
    requires p.ni * p.sigmaF != 0.0
    requires p.sigmaAXe != 0.0
    ensures Rho(p, xe).Some? && XeFromRho(p, Rho(p, xe).value) == xe
    ensures Rho(p, XeFromRho(p, rho)) == Some(rho)
  {
    var k := p.ni * p.sigmaF;
    var x := XeFromRho(p, rho);
    assert p.sigmaAXe * x == rho * k;
    assert Rho(p, x).value * k == rho * k;
  }

  /** The poisoning transform is linear, so no xenon means no poisoning. */
  lemma RhoIsLinear(p: Params, c: real, x: real, y: real)
    requires p.ni * p.sigmaF != 0.0
    ensures Rho(p, c * x + y).value == c * Rho(p, x).value + Rho(p, y).value
    ensures Rho(p, 0.0) == Some(0.0)
  {
  }

  /** With valid constants, more xenon always means more poisoning. */
  lemma RhoIsIncreasing(p: Params, x: real, y: real)
    requires Valid(p)
    ensures Rho(p, x).Some? && Rho(p, y).Some?
    ensures x < y <==> Rho(p, x).value < Rho(p, y).value
  {
  }

  // ---------------------------------------------------------------------------
  // Analytical solution
  // ---------------------------------------------------------------------------

  /** The closed-form xenon concentration at a time t, given the two decay
      factors decayXe = e^(-lambdaXe t) and decayI = e^(-lambdaI t). A zero
      denominator is Python's ZeroDivisionError. */
  function XePopAnalytical(p: Params, decayXe: real, decayI: real): (r: Result<real>)
    ensures r.Ok? <==> p.lambdaXe + p.sigmaAXe * p.phi != 0.0 && p.lambdaI != p.lambdaXe
    ensures r.Err? ==> r.error == DivisionByZero
  {
    if p.lambdaXe + p.sigmaAXe * p.phi == 0.0 then Err(DivisionByZero)
    else if p.lambdaI - p.lambdaXe == 0.0 then Err(DivisionByZero)
    else
      var term1 := p.sigmaF * p.phi;
      var term2 := ((p.gammaI + p.gammaXe) / (p.lambdaXe + p.sigmaAXe * p.phi)) * decayXe;
      var term3 := p.gammaI / (p.lambdaI - p.lambdaXe) * (decayXe - decayI);
      Ok(term1 * (term2 + term3))
  }

  /** The time derivative of the analytical xenon concentration, taken term by
      term with d/dt e^(-lambda t) = -lambda e^(-lambda t). */
  function AnalyticRate(p: Params, decayXe: real, decayI: real): real
    requires p.lambdaXe + p.sigmaAXe * p.phi != 0.0
    requires p.lambdaI != p.lambdaXe
  {
    var c1 := (p.gammaI + p.gammaXe) / (p.lambdaXe + p.sigmaAXe * p.phi);
    var c2 := p.gammaI / (p.lambdaI - p.lambdaXe);
    p.sigmaF * p.phi * (c1 * (-p.lambdaXe * decayXe)
                        + c2 * (-p.lambdaXe * decayXe + p.lambdaI * decayI))
  }

  /** At t = 0 (both decay factors 1) the analytical xenon is the equilibrium
      xenon at nominal flux, not zero. */
  lemma AnalyticStartsAtEquilibrium(p: Params)
    requires Valid(p)
    requires p.lambdaI != p.lambdaXe
    ensures InitialConditions(p, 1.0).Ok?
    ensures XePopAnalytical(p, 1.0, 1.0) == Ok(InitialConditions(p, 1.0).value.xe)
  {
    EquilibriumIsPositive(p, 1.0);
    var x := p.lambdaXe + p.sigmaAXe * p.phi;
    var g := p.gammaI + p.gammaXe;
    assert XenonRemoval(p, 1.0) == x;
    assert InitialConditions(p, 1.0).value.xe == g * p.sigmaF * 1.0 * p.phi / x;
    var term2 := (g / x) * 1.0;
    var term3 := p.gammaI / (p.lambdaI - p.lambdaXe) * (1.0 - 1.0);
    assert term3 == 0.0;
    assert XePopAnalytical(p, 1.0, 1.0).value == p.sigmaF * p.phi * (term2 + term3);
    assert term2 + term3 == g / x;
    assert p.sigmaF * p.phi * (g / x) == g * p.sigmaF * 1.0 * p.phi / x;
    assert XePopAnalytical(p, 1.0, 1.0).value == InitialConditions(p, 1.0).value.xe;
  }

  /** The analytical formula is the shutdown transient: started from the
      nominal-flux equilibrium, with the iodine decaying as i0 e^(-lambdaI t),
      it satisfies the unforced Bateman equations at every time. */
  lemma AnalyticSolvesShutdown(p: Params, decayXe: real, decayI: real)
    requires Valid(p)
    requires p.lambdaI != p.lambdaXe
    ensures InitialConditions(p, 1.0).Ok? && XePopAnalytical(p, decayXe, decayI).Ok?
    ensures var i0 := InitialConditions(p, 1.0).value.i;
            var xe := XePopAnalytical(p, decayXe, decayI).value;
            Derivative(p, State(i0 * decayI, xe), 0.0, 0.0)
            == State(-p.lambdaI * (i0 * decayI), AnalyticRate(p, decayXe, decayI))
  {
    EquilibriumIsPositive(p, 1.0);
    var i0 := InitialConditions(p, 1.0).value.i;
    var k := p.sigmaF * p.phi;
    var c1 := (p.gammaI + p.gammaXe) / (p.lambdaXe + p.sigmaAXe * p.phi);
    var c2 := p.gammaI / (p.lambdaI - p.lambdaXe);
    // the iodine feeding xenon is exactly the rate the iodine term of the formula decays at
    assert p.lambdaI * i0 == p.gammaI * k;
    assert c2 * (p.lambdaI - p.lambdaXe) == p.gammaI;
    var xe := XePopAnalytical(p, decayXe, decayI).value;
    assert xe == k * (c1 * decayXe + c2 * (decayXe - decayI));
  }

  /** With both denominators non-zero, the analytical xenon is sigmaF·phi times
      the sum of its equilibrium and iodine-decay terms. */
  lemma AnalyticTerms(p: Params, decayXe: real, decayI: real)
    requires p.lambdaXe + p.sigmaAXe * p.phi != 0.0 && p.lambdaI != p.lambdaXe
    ensures XePopAnalytical(p, decayXe, decayI).Ok?
    ensures XePopAnalytical(p, decayXe, decayI).value
            == p.sigmaF * p.phi * (((p.gammaI + p.gammaXe) / (p.lambdaXe + p.sigmaAXe * p.phi)) * decayXe
                                   + p.gammaI / (p.lambdaI - p.lambdaXe) * (decayXe - decayI))
  {
  }

  /** k·(g/x·u + gI/d·e) is positive when k, g, x, u and gI are positive and d
      and e do not have opposite signs. */
  lemma PositiveCombination(k: real, g: real, x: real, u: real, gI: real, d: real, e: real)
    requires 0.0 < k && 0.0 < g && 0.0 < x && 0.0 < u && 0.0 < gI
    requires d != 0.0
    requires 0.0 < d ==> 0.0 <= e
    requires d < 0.0 ==> e <= 0.0
    ensures 0.0 < k * (g / x * u + gI / d * e)
  {
    var a := g / x * u;
    var b := gI / d * e;
    assert 0.0 < g / x;
    assert 0.0 < a;
    if 0.0 < d {
      assert 0.0 < gI / d;
    } else {
      assert gI / d < 0.0;
    }
    assert 0.0 <= b;
    assert 0.0 < a + b;
  }

  /** While the decay factors are positive and ordered as the decay constants
      are (the faster-decaying species has the smaller factor, as at every
      t >= 0), the analytical xenon stays strictly positive, so the analytical
      poisoning never vanishes and every relative error is defined. */
  lemma AnalyticIsPositive(p: Params, decayXe: real, decayI: real)
    requires Valid(p)
    requires p.lambdaI != p.lambdaXe
    requires 0.0 < decayXe && 0.0 < decayI
    requires p.lambdaXe < p.lambdaI ==> decayI <= decayXe
    requires p.lambdaI < p.lambdaXe ==> decayXe <= decayI
    ensures XePopAnalytical(p, decayXe, decayI).Ok?
    ensures 0.0 < XePopAnalytical(p, decayXe, decayI).value
  {
    assert 0.0 < p.sigmaAXe * p.phi;
    assert 0.0 < p.sigmaF * p.phi;
    AnalyticTerms(p, decayXe, decayI);
    PositiveCombination(p.sigmaF * p.phi, p.gammaI + p.gammaXe, p.lambdaXe + p.sigmaAXe * p.phi, decayXe,
                        p.gammaI, p.lambdaI - p.lambdaXe, decayXe - decayI);
  }

  // ---------------------------------------------------------------------------
  // Relative errors
  // ---------------------------------------------------------------------------

  /** The relative error of a numerical value against an analytical one;
      undefined (numpy's inf/nan) when the analytical value is zero. */
  function RelativeError(num: real, ana: real): (r: Option<real>)
    ensures r.Some? <==> ana != 0.0
    ensures r.Some? ==> r.value * ana == ana - num
  {
    if ana == 0.0 then None else Some((ana - num) / ana)
  }

  /** Numerical below a positive analytical value gives a positive error,
      equal values give zero, numerical above gives a negative error. */
  lemma RelativeErrorSign(num: real, ana: real)
    requires 0.0 < ana
    ensures RelativeError(num, ana).Some?
    ensures 0.0 < RelativeError(num, ana).value <==> num < ana
    ensures 0.0 == RelativeError(num, ana).value <==> num == ana
    ensures RelativeError(num, ana).value < 0.0 <==> ana < num
  {
  }

  /** Pairs numerical and analytical values by position, as `zip` does, and
      takes the relative error of each pair. */
  function CalculateErrors(num: seq<real>, ana: seq<real>): (r: seq<Option<real>>)
    ensures |r| == if |num| <= |ana| then |num| else |ana|
    ensures forall i :: 0 <= i < |r| ==> (r[i].Some? <==> ana[i] != 0.0)
    ensures forall i :: 0 <= i < |r| && r[i].Some? ==> r[i].value * ana[i] == ana[i] - num[i]
  {
    var n := if |num| <= |ana| then |num| else |ana|;
    seq(n, i requires 0 <= i < n => RelativeError(num[i], ana[i]))
  }
}
