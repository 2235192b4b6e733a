/** The two rotation curves of the galaxy view: orbital speed (normalised to
    1 at the core edge) as a function of the distance from the centre. */
module RotationCurves {
  import opened Transcendental

  const GALAXY_RADIUS: real := 30.0
  const CORE_RADIUS: real := 3.0
  const BULGE_RADIUS: real := 6.0

  /** Newtonian expectation: rigid rotation inside the core, then decay as
      the square root of CORE_RADIUS / r. */
  function KeplerianVelocity(m: MathLib, r: real): real
  {
    if r < CORE_RADIUS then r / CORE_RADIUS else m.sqrt(CORE_RADIUS / r)
  }

  /** The observed, flat curve: rigid rotation inside the core, then
      0.85 + 0.15 * exp(-r / 20). */
  function ObservedVelocity(m: MathLib, r: real): real
  {
    if r < CORE_RADIUS then r / CORE_RADIUS else 0.85 + 0.15 * m.exp(-r / 20.0)
  }

  /** Inside the core both curves coincide with rigid rotation r / CORE_RADIUS,
      whatever the library functions are; so both are 0 at the centre and
      below 1 everywhere in the core. */
  lemma CoreAgreement(m: MathLib, r: real)
    requires 0.0 <= r < CORE_RADIUS
    ensures KeplerianVelocity(m, r) == ObservedVelocity(m, r) == r / CORE_RADIUS
    ensures 0.0 <= KeplerianVelocity(m, r) < 1.0
    ensures r == 0.0 ==> KeplerianVelocity(m, r) == 0.0
  {
  }

  /** Outside the core the observed curve stays within (0.85, 1.0] as long as
      exp of a negative argument lies in (0, 1]: it never falls toward zero,
      which is the discrepancy the view illustrates. */
  lemma ObservedFlatOutsideCore(m: MathLib, r: real)
    requires r >= CORE_RADIUS
    requires 0.0 < m.exp(-r / 20.0) <= 1.0
    ensures 0.85 < ObservedVelocity(m, r) <= 1.0
  {
  }
}
