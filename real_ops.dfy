/** The float helpers the engine relies on, over the reals. */
module RealOps {

  /** std::max: the second argument when the first is less than it, else the first. */
  function Max(a: real, b: real): (r: real)
    ensures a <= r && b <= r
    ensures r == a || r == b
  {
    if a < b then b else a
  }

  /** std::min: the second argument when it is less than the first, else the first. */
  function Min(a: real, b: real): (r: real)
    ensures r <= a && r <= b
    ensures r == a || r == b
  {
    if b < a then b else a
  }

  /** The clamp evalQubic applies to each coordinate: first raise to lo, then lower to hi. */
  function Clamp(v: real, lo: real, hi: real): (r: real)
    ensures r <= hi
    ensures lo <= hi ==> lo <= r
    ensures lo <= v <= hi ==> r == v
    ensures lo <= hi && v <= lo ==> r == lo
    ensures hi <= v ==> r == hi
    ensures hi < lo ==> r == hi
  {
    Min(hi, Max(lo, v))
  }

  /** Clamping twice is clamping once. */
  lemma ClampIdempotent(v: real, lo: real, hi: real)
    ensures Clamp(Clamp(v, lo, hi), lo, hi) == Clamp(v, lo, hi)
  {
  }

  /** The secant of a straight line between two distinct abscissae is its slope. */
  lemma SecantOfLine(slope: real, offset: real, p: real, q: real, vp: real, vq: real)
    requires p != q && vp == slope * p + offset && vq == slope * q + offset
    ensures (vq - vp) / (q - p) == slope
  {
    assert vq - vp == slope * (q - p);
  }
}
