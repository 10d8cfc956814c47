/** The floating-point library routines the renderer calls, over `real`.
    `sqrt`, `sin` and `cos` cannot be computed exactly over the reals, so they
    are oracles handed to every operation that needs them; a lemma that relies
    on a property of one of them states that property as a precondition. */
module Numerics {

  /** sqrt, sin and cos as supplied by <cmath>. */
  datatype Libm = Libm(sqrt: real -> real, sin: real -> real, cos: real -> real)

  /** `glm::pi<double>()` rounded to the nearest decimal of a double. */
  const Pi: real := 3.141592653589793

  /** The square-root oracle never returns a negative number on its domain. */
  ghost predicate SqrtNonNegative(lib: Libm)
  {
    forall x: real {:trigger lib.sqrt(x)} :: 0.0 <= x ==> 0.0 <= lib.sqrt(x)
  }

  /** The square-root oracle is exact at `x`. */
  predicate SqrtExactAt(lib: Libm, x: real)
  {
    0.0 <= lib.sqrt(x) && lib.sqrt(x) * lib.sqrt(x) == x
  }

  /** `std::min`/`std::max` over reals, as used by glm and by the quantiser. */
  function Min(a: real, b: real): real { if b < a then b else a }
  function Max(a: real, b: real): real { if a < b then b else a }

  /** `std::abs` on a real. */
  function Abs(a: real): real { if a < 0.0 then -a else a }

  /** A draw in `[0, 1)` times `3n` over 3 lies in `[0, n)`. */
  lemma DrawScalesIntoRange(r: real, size: nat, n: nat)
    requires size == 3 * n && 0.0 <= r < 1.0
    ensures 0.0 <= r * (size as real) / 3.0
    ensures 0 < n ==> r * (size as real) / 3.0 < n as real
  {
    ThirdOfScaledDraw(r, size as real, n as real);
  }

  /** A draw in `[0, 1)` times `3m` over 3 lies in `[0, m)`. */
  lemma ThirdOfScaledDraw(r: real, t: real, m: real)
    requires t == 3.0 * m && 0.0 <= r < 1.0 && 0.0 <= m
    ensures 0.0 <= r * t / 3.0
    ensures 0.0 < m ==> r * t / 3.0 < m
  {
    var q := r * t / 3.0;
    assert q == r * m;
    assert m - q == (1.0 - r) * m;
  }
}
