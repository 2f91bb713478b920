/** Four-momenta and the kinematic quantities the reconstructor reads from them.

    The transverse momentum, the pseudorapidity and the angular distance of
    two momenta are floating-point, trigonometric routines of a foreign
    library (ROOT's TLorentzVector). They are kept opaque: a `Geometry`
    value carries them as plain functions, and every result of the model
    holds for every choice of them.
 */
module Kinematics {

  /** A Lorentz four-vector (px, py, pz, E) with exact real components. */
  datatype Momentum = Momentum(px: real, py: real, pz: real, e: real)

  /** Componentwise sum: TLorentzVector's `+=`. */
  function Add(a: Momentum, b: Momentum): Momentum {
    Momentum(a.px + b.px, a.py + b.py, a.pz + b.pz, a.e + b.e)
  }

  /** The kinematic read-outs of a momentum, left uninterpreted:
      `pt` is Pt(), `eta` is Eta(), and `deltaR(a, b)` is `a.DeltaR(b)`. */
  datatype Geometry = Geometry(
    pt: Momentum -> real,
    eta: Momentum -> real,
    deltaR: (Momentum, Momentum) -> real)

  /** A transverse momentum is never negative (true of the real Pt()). */
  ghost predicate PtNonNegative(g: Geometry) {
    forall m: Momentum :: g.pt(m) >= 0.0
  }

  /** `fabs` on reals. */
  function Abs(x: real): real {
    if x < 0.0 then -x else x
  }
}
