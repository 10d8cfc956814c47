/** The sequential renderer of function.cpp: the film's buffer is resized
    to `width * height` and every pixel, row by row, receives the average
    of its samples. `trace_ray` has no body in that file, so what a sample
    brings back is the `Radiance` parameter. */
module FilmRender {
  import opened VectorMath
  import opened SceneData
  import opened PixelAverage

  /** `render(scene, camera, film)`: afterwards the buffer holds exactly
      one colour per pixel, and the colour of pixel `(x, y)`, in its
      row-major slot, is the average of that pixel's samples. */
  method Render(film: Film, samples: I16, radiance: Radiance)
    requires samples != 0
    modifies film
    ensures film.width == old(film.width) && film.height == old(film.height)
    ensures |film.buffer| == film.width * film.height
    ensures forall x, y :: 0 <= x < film.width && 0 <= y < film.height ==>
      film.buffer[PixelIndex(x, y, film.width, film.height)] == PixelValue(radiance, x, y, samples)
  {
    var height: nat := film.height;
    var width: nat := film.width;
    film.buffer := Resize(film.buffer, width * height);
    for y := 0 to height
      invariant film.width == width && film.height == height
      invariant |film.buffer| == width * height
      invariant forall px, py :: 0 <= px < width && 0 <= py < y ==>
        film.buffer[PixelIndex(px, py, width, height)] == PixelValue(radiance, px, py, samples)
    {
      for x := 0 to width
        invariant film.width == width && film.height == height
        invariant |film.buffer| == width * height
        invariant forall px, py :: 0 <= px < width && 0 <= py < height && (py < y || (py == y && px < x)) ==>
          film.buffer[PixelIndex(px, py, width, height)] == PixelValue(radiance, px, py, samples)
      {
        var color := Accumulate(radiance, x, y, samples);
        WriteKeepsOtherPixels(film.buffer, width, height, x, y, color);
        film.buffer := film.buffer[PixelIndex(x, y, width, height) := color];
      }
    }
  }
}
