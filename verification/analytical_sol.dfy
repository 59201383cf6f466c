/** analytical_sol.py: a second copy of the analytical xenon formula and of
    the relative-error list, proved to agree with the copies in bateman_eq.py. */
module AnalyticalSol {
  import opened Results
  import opened Parameters
  import Bateman

  /** `Xe_flux(t)`, given the decay factors e^(-lambdaXe t) and e^(-lambdaI t).
      A zero denominator is Python's ZeroDivisionError. */
  function XeFlux(p: Params, decayXe: real, decayI: real): (r: Result<real>)
    ensures r.Ok? <==> p.lambdaXe + p.sigmaAXe * p.phi != 0.0 && p.lambdaI != p.lambdaXe
    ensures r.Err? ==> r.error == DivisionByZero
  {
    if p.lambdaXe + p.sigmaAXe * p.phi == 0.0 then Err(DivisionByZero)
    else if p.lambdaI - p.lambdaXe == 0.0 then Err(DivisionByZero)
    else
      var term1 := p.sigmaF * p.phi;
      var term2 := ((p.gammaI + p.gammaXe) / (p.lambdaXe + p.sigmaAXe * p.phi)) * decayXe;
      var term3 := p.gammaI / (p.lambdaI - p.lambdaXe) * (decayXe - decayI);
      Ok(term1 * (term2 + term3))
  }

  /** The two copies of the analytical formula agree everywhere, errors included. */
  lemma XeFluxAgrees(p: Params, decayXe: real, decayI: real)
    ensures XeFlux(p, decayXe, decayI) == Bateman.XePopAnalytical(p, decayXe, decayI)
  {
  }

  /** At t = 0 the analytical xenon is the nominal-flux equilibrium, which is
      positive: the analytical poisoning at index 0 is positive and the
      relative error there is defined. */
  lemma FirstErrorIsDefined(p: Params, num: real)
    requires Valid(p)
    requires p.lambdaI != p.lambdaXe
    ensures Bateman.InitialConditions(p, 1.0).Ok?
    ensures XeFlux(p, 1.0, 1.0) == Ok(Bateman.InitialConditions(p, 1.0).value.xe)
    ensures Bateman.Rho(p, XeFlux(p, 1.0, 1.0).value).Some?
    ensures 0.0 < Bateman.Rho(p, XeFlux(p, 1.0, 1.0).value).value
    ensures CalculateErrors([num], [Bateman.Rho(p, XeFlux(p, 1.0, 1.0).value).value])[0].Some?
  {
    Bateman.AnalyticStartsAtEquilibrium(p);
    Bateman.EquilibriumIsPositive(p, 1.0);
    XeFluxAgrees(p, 1.0, 1.0);
    var xe := XeFlux(p, 1.0, 1.0).value;
    assert 0.0 < xe;
    Bateman.RhoIsIncreasing(p, 0.0, xe);
    Bateman.RhoIsLinear(p, 0.0, 0.0, 0.0);
    var rho := Bateman.Rho(p, xe).value;
    assert 0.0 < rho;
    assert CalculateErrors([num], [rho])[0] == Some((rho - num) / rho);
  }

  /** `[(ana - num) / ana for num, ana in zip(num, ana)]`, walking the two
      lists together; a zero analytical value gives numpy's inf/nan, modelled
      as an undefined entry. */
  function CalculateErrors(num: seq<real>, ana: seq<real>): (r: seq<Option<real>>)
    ensures |r| == if |num| <= |ana| then |num| else |ana|
    decreases |num|
  {
    if |num| == 0 || |ana| == 0 then []
    else
      var e := if ana[0] == 0.0 then None else Some((ana[0] - num[0]) / ana[0]);
      [e] + CalculateErrors(num[1..], ana[1..])
  }

  /** The two copies of the relative-error list agree element by element. */
  lemma {:induction false} CalculateErrorsAgree(num: seq<real>, ana: seq<real>)
    ensures CalculateErrors(num, ana) == Bateman.CalculateErrors(num, ana)
    decreases |num|
  {
    var r := CalculateErrors(num, ana);
    var b := Bateman.CalculateErrors(num, ana);
    if |num| != 0 && |ana| != 0 {
      CalculateErrorsAgree(num[1..], ana[1..]);
      var b' := Bateman.CalculateErrors(num[1..], ana[1..]);
      forall i | 0 <= i < |r|
        ensures r[i] == b[i]
      {
        if 0 < i {
          assert r[i] == b'[i - 1];
          assert b'[i - 1] == Bateman.RelativeError(num[1..][i - 1], ana[1..][i - 1]);
          assert b[i] == Bateman.RelativeError(num[i], ana[i]);
        } else {
          assert b[0] == Bateman.RelativeError(num[0], ana[0]);
        }
      }
    }
  }

  /** The sign convention of this copy: numerical below a positive analytical
      value gives a positive error, equal values give zero, above gives a
      negative error. */
  lemma ErrorSignConvention(num: real, ana: real)
    requires 0.0 < ana
    ensures |CalculateErrors([num], [ana])| == 1
    ensures CalculateErrors([num], [ana])[0].Some?
    ensures 0.0 < CalculateErrors([num], [ana])[0].value <==> num < ana
    ensures CalculateErrors([num], [ana])[0].value == 0.0 <==> num == ana
    ensures CalculateErrors([num], [ana])[0].value < 0.0 <==> ana < num
  {
  }
}
