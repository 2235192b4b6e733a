/** The floating-point library functions the simulation calls (Math.sqrt,
    Math.exp, Math.pow, Math.cos, Math.sin, Math.acos, Math.atan2).
    Their numerical behaviour is not modelled: the model is parametric in any
    total function of the right shape, and a property that needs a range fact
    about one of them states it as a precondition. */
module Transcendental {

  const PI: real := 3.141592653589793

  datatype MathLib = MathLib(
    sqrt: real -> real,
    exp: real -> real,
    pow: (real, real) -> real,
    cos: real -> real,
    sin: real -> real,
    acos: real -> real,
    atan2: (real, real) -> real)
}
