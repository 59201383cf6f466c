/** The physical constants of the reactor, passed explicitly to every operation
    instead of being read from a global class. */
module Parameters {

  /** One configuration of physical constants (units as in parameters.py). */
  datatype Params = Params(
    gammaI: real,    // fission yield of I-135
    sigmaF: real,    // macroscopic fission cross-section
    lambdaI: real,   // decay constant of I-135 (1/s)
    gammaXe: real,   // fission yield of Xe-135
    lambdaXe: real,  // decay constant of Xe-135 (1/s)
    sigmaAXe: real,  // microscopic absorption cross-section of Xe-135 (cm^2)
    phi: real,       // nominal thermal neutron flux (1/(cm^2 s))
    ni: real)        // neutrons released per fission

  /** Physically meaningful constants: every one of them strictly positive. */
  predicate Valid(p: Params) {
    && p.gammaI > 0.0
    && p.sigmaF > 0.0
    && p.lambdaI > 0.0
    && p.gammaXe > 0.0
    && p.lambdaXe > 0.0
    && p.sigmaAXe > 0.0
    && p.phi > 0.0
    && p.ni > 0.0
  }

  /** The constants the program ships with. */
  const Default: Params := Params(
    0.061,
    0.008,
    0.00002874,
    0.003,
    0.00002027,
    0.00000000000000000275,
    442000000000000000000.0,
    2.3)

  /** The shipped constants are valid and the two decay constants differ,
      which the analytical solution needs. */
  lemma DefaultIsUsable()
    ensures Valid(Default)
    ensures Default.lambdaI != Default.lambdaXe
    ensures Default.lambdaI > Default.lambdaXe
  {
  }
}
