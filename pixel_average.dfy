/** The per-pixel work shared by the sequential renderer (function.cpp) and
    the tiled one (renderer.cpp): the jittered screen coordinates of a
    sample, and the box average of `samples` radiance samples. The camera,
    the integrator and the random generator are outside the model: the
    colour the `s`-th sample of pixel `(x, y)` brings back is given by a
    `Radiance` function. */
module PixelAverage {
  import opened Numerics
  import opened VectorMath

  /** The colour of sample `s` of pixel `(x, y)`. */
  type Radiance = (int, int, int) -> Vec3

  /** The horizontal screen coordinate of a sample: pixel column `x` plus
      the jitter `r`, mapped from `[0, width)` onto `[-1, 1)`. */
  function ScreenU(x: int, r: real, width: int): (u: real)
    requires 0 <= x < width
    ensures 0.0 <= r < 1.0 ==> -1.0 <= u < 1.0
  {
    var w := width as real;
    var f := (x as real + r) / w;
    assert 0.0 <= r < 1.0 ==> 0.0 <= f < 1.0 by {
      if 0.0 <= r < 1.0 {
        FractionOfWhole(x as real + r, w);
      }
    }
    f * 2.0 - 1.0
  }

  /** The vertical screen coordinate: pixel row `y` plus the jitter,
      flipped so that the top row is near `+1`; it lies in `(-1, 1]`. */
  function ScreenV(y: int, r: real, height: int): (v: real)
    requires 0 <= y < height
    ensures 0.0 <= r < 1.0 ==> -1.0 < v <= 1.0
  {
    var h := height as real;
    var f := (y as real + r) / h;
    assert 0.0 <= r < 1.0 ==> 0.0 <= f < 1.0 by {
      if 0.0 <= r < 1.0 {
        FractionOfWhole(y as real + r, h);
      }
    }
    1.0 - f * 2.0
  }

  /** A part of a positive whole is a fraction in `[0, 1)` of it. */
  lemma FractionOfWhole(part: real, whole: real)
    requires 0.0 <= part < whole
    ensures 0.0 <= part / whole < 1.0
  {
  }

  /** Columns further right and rows further down land further right and
      further down on the screen, whatever the jitters. */
  lemma {:induction false} ScreenOrder(x: int, x': int, r: real, r': real, width: int)
    requires 0 <= x < x' < width && 0.0 <= r < 1.0 && 0.0 <= r' < 1.0
    ensures ScreenU(x, r, width) < ScreenU(x', r', width)
    ensures ScreenV(x, r, width) > ScreenV(x', r', width)
  {
    var w := width as real;
    assert x as real + r < x' as real + r';
    assert (x as real + r) / w < (x' as real + r') / w;
  }

  /** The sum of the first `n` samples of pixel `(x, y)`. */
  function SampleSum(radiance: Radiance, x: int, y: int, n: nat): Vec3
  {
    if n == 0 then Zero() else SampleSum(radiance, x, y, n - 1).Add(radiance(x, y, n - 1))
  }

  /** The colour stored for pixel `(x, y)`: the sum of its samples divided
      by their count. A negative count (an `int16_t`) runs no sample and
      stores black; a zero count divides by zero and is excluded. */
  function PixelValue(radiance: Radiance, x: int, y: int, samples: int): (r: Vec3)
    requires samples != 0
    ensures samples < 0 ==> r == Zero()
  {
    SampleSum(radiance, x, y, if samples < 0 then 0 else samples).DivBy(samples as real)
  }

  /** The accumulation loop of one pixel: adds up its samples and divides
      by their count. */
  method Accumulate(radiance: Radiance, x: int, y: int, samples: int) returns (color: Vec3)
    requires samples != 0
    ensures color == PixelValue(radiance, x, y, samples)
  {
    color := Zero();
    var s := 0;
    while s < samples
      invariant 0 <= s && (0 < samples ==> s <= samples) && (samples < 0 ==> s == 0)
      invariant color == SampleSum(radiance, x, y, s)
      decreases samples - s
    {
      color := color.Add(radiance(x, y, s));
      s := s + 1;
    }
    color := color.DivBy(samples as real);
  }

  /** A pixel all of whose samples bring back the same colour stores that
      colour: the average of `n` copies of `c` is `c`. */
  lemma {:induction false} AverageOfConstant(radiance: Radiance, x: int, y: int, samples: int, c: Vec3)
    requires 0 < samples
    requires forall s :: 0 <= s < samples ==> radiance(x, y, s) == c
    ensures PixelValue(radiance, x, y, samples) == c
  {
    SumOfConstant(radiance, x, y, samples, c);
    var n := samples as real;
    assert c.Scale(n).DivBy(n) == c by {
      assert c.x * n / n == c.x;
      assert c.y * n / n == c.y;
      assert c.z * n / n == c.z;
    }
  }

  /** The sum of `n` copies of `c` is `c` scaled by `n`. */
  lemma {:induction false} SumOfConstant(radiance: Radiance, x: int, y: int, n: nat, c: Vec3)
    requires forall s :: 0 <= s < n ==> radiance(x, y, s) == c
    ensures SampleSum(radiance, x, y, n) == c.Scale(n as real)
  {
    if n > 0 {
      SumOfConstant(radiance, x, y, n - 1, c);
      var m := (n - 1) as real;
      assert c.Scale(m).Add(c) == c.Scale(m + 1.0);
    }
  }
}
