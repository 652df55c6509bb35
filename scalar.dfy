/** Constants of the renderer and the C++ scalar conversions it relies on.
    Floats are modelled as Dafny reals; the transcendental functions the
    renderer calls are passed in as values of type Numerics. */
module Scalar {

  /** The program's own approximation of pi. */
  const PI: real := 3.1415926535
  /** Boundaries of the four texture-face buckets. */
  const AngleC: real := PI / 4.0
  const AngleD: real := AngleC * 3.0
  const AngleB: real := -AngleC
  const AngleA: real := -AngleD

  /** Field of view and half field of view, in radians. */
  const FOV: real := 3.14 / 4.0
  const HFOV: real := FOV / 2.0
  /** Longest ray the renderer casts. */
  const MaxDistance: real := 16.0
  /** Value the depth buffer is refilled with at the start of every frame. */
  const FarDepth: real := 1000.0
  /** Sprites nearer than this are not drawn. */
  const NearClip: real := 0.5

  datatype Vec = Vec(x: real, y: real)

  /** The transcendental functions the renderer calls (sqrtf, sinf, cosf,
      atan2f), supplied from outside the model. */
  datatype Numerics = Numerics(
    sqrt: real -> real,
    sin: real -> real,
    cos: real -> real,
    atan2: (real, real) -> real)

  /** What the model needs of the supplied functions: a square root of a
      value of at least 1 is at least 1. */
  ghost predicate SaneNumerics(n: Numerics)
  {
    forall t: real :: t >= 1.0 ==> n.sqrt(t) >= 1.0
  }

  function Min(a: real, b: real): (m: real)
    ensures m <= a && m <= b
    ensures m == a || m == b
  {
    if a <= b then a else b
  }

  /** C++ conversion of a float to int: truncation toward zero. */
  function Trunc(r: real): (t: int)
    ensures r >= 0.0 ==> t as real <= r < t as real + 1.0
    ensures r < 0.0 ==> t as real - 1.0 < r <= t as real
    ensures t >= 0 <==> r > -1.0
  {
    if r >= 0.0 then r.Floor else -((-r).Floor)
  }

  /** C++ integer division of n by 2: truncation toward zero. */
  function Half(n: int): (h: int)
    ensures n >= 0 ==> 0 <= n - 2 * h <= 1
    ensures n < 0 ==> -1 <= n - 2 * h <= 0
    ensures n >= 0 ==> 0 <= h <= n
    ensures n < 0 ==> n <= h <= 0
  {
    if n >= 0 then n / 2 else -((-n) / 2)
  }

  /** The value minus its truncation, as `v - (int)v` computes it. */
  function TruncFract(v: real): (f: real)
    ensures v >= 0.0 ==> 0.0 <= f < 1.0
    ensures v < 0.0 ==> -1.0 < f <= 0.0
  {
    v - Trunc(v) as real
  }

  /** The value minus its floor, as `v - floor(v)` computes it. */
  function Fract(v: real): (f: real)
    ensures 0.0 <= f < 1.0
    ensures (v - f).Floor as real == v - f
  {
    v - v.Floor as real
  }

  lemma {:induction false} FloorShift(v: real, n: int)
    ensures (v + n as real).Floor == v.Floor + n
  {
    var f := v.Floor;
    assert f as real <= v < f as real + 1.0;
    assert (f + n) as real <= v + n as real < (f + n) as real + 1.0;
  }

  lemma MulNonNegative(a: real, b: real)
    requires a >= 0.0 && b >= 0.0
    ensures a * b >= 0.0
  {
  }

  lemma NonNegFactor(a: real, b: real)
    requires a > 0.0 && a * b >= 0.0
    ensures b >= 0.0
  {
  }

  lemma DivNonNegative(n: real, d: real)
    requires n >= 0.0 && d > 0.0
    ensures n / d >= 0.0
  {
  }

  lemma MulMonotoneReal(a: real, b: real, c: real)
    requires a <= b && c >= 0.0
    ensures a * c <= b * c
  {
    assert (b - a) * c == b * c - a * c;
  }

  /** Dividing by a larger positive number gives a smaller quotient. */
  lemma DivAntitone(n: real, near: real, far: real)
    requires n >= 0.0 && 0.0 < near <= far
    ensures n / far <= n / near
  {
    var qn, qf := n / near, n / far;
    assert near * qn == n && far * qf == n;
    DivNonNegative(n, far);
    MulMonotoneReal(near, far, qf);
    assert near * (qn - qf) >= 0.0;
    NonNegFactor(near, qn - qf);
  }
}
