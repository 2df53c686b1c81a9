/** Helpers on sequences of reals shared by the integrator and the vector code. */
module RealSeqs {

  /** Every entry negated. */
  function Neg(v: seq<real>): (w: seq<real>)
    ensures |w| == |v|
  {
    seq(|v|, i requires 0 <= i < |v| => -v[i])
  }
}
