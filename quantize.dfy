/** The output stage of main.cpp: every film colour is clamped to `[0, 1]`
    channel by channel, scaled by 255.9 and truncated to a byte, and the
    bytes are laid out pixel after pixel as R, G, B. The conversion of the
    film's `double` channels to `float` is not modelled: channels are
    reals. */
module Quantize {
  import opened VectorMath

  /** `uint8_t`. */
  type Byte = b: int | 0 <= b < 0x100

  /** The `clamp` lambda: `min(max(0, v), 1)`. */
  function Clamp(v: real): (r: real)
    ensures 0.0 <= r <= 1.0
    ensures 0.0 <= v <= 1.0 ==> r == v
    ensures v < 0.0 ==> r == 0.0
    ensures 1.0 < v ==> r == 1.0
  {
    var lower := if 0.0 < v then v else 0.0;
    if lower < 1.0 then lower else 1.0
  }

  /** The channel byte: the clamped channel times 255.9, converted to
      `uint8_t`; the product is never negative, so the conversion's
      truncation toward zero is the floor. */
  function ChannelByte(c: real): (b: Byte)
  {
    (Clamp(c) * 255.9).Floor
  }

  /** A channel byte is the largest number of steps of 1/255.9 that fit
      under the clamped channel: the byte reads back as the clamped value
      to within one step. Channels at or below 0 give 0 and channels at or
      above 1 give 255. */
  lemma {:induction false} ChannelByteReadsBack(c: real)
    ensures var b := ChannelByte(c);
      b as real / 255.9 <= Clamp(c) < (b + 1) as real / 255.9
    ensures c <= 0.0 ==> ChannelByte(c) == 0
    ensures 1.0 <= c ==> ChannelByte(c) == 255
  {
    var p := Clamp(c) * 255.9;
    assert p.Floor as real <= p < p.Floor as real + 1.0;
    assert 1.0 <= c ==> p == 255.9;
  }

  /** Clamping and quantising never reverse the order of two channels. */
  lemma {:induction false} ChannelByteMonotone(c: real, d: real)
    requires c <= d
    ensures Clamp(c) <= Clamp(d)
    ensures ChannelByte(c) <= ChannelByte(d)
  {
    var p, q := Clamp(c) * 255.9, Clamp(d) * 255.9;
    assert p <= q;
    assert p.Floor as real <= p;
    assert q < q.Floor as real + 1.0;
  }

  /** The three bytes of one pixel, red first. */
  function PixelBytes(color: Vec3): (r: seq<Byte>)
  {
    [ChannelByte(color.x), ChannelByte(color.y), ChannelByte(color.z)]
  }

  /** The bytes of a whole buffer, pixel after pixel. */
  function Bytes(buffer: seq<Vec3>): (r: seq<Byte>)
  {
    if buffer == [] then [] else Bytes(buffer[..|buffer| - 1]) + PixelBytes(buffer[|buffer| - 1])
  }

  /** The byte vector has three bytes per pixel, and the bytes at
      `3 * i`, `3 * i + 1` and `3 * i + 2` are the red, green and blue
      channel bytes of pixel `i`. */
  lemma {:induction false} BytesLayout(buffer: seq<Vec3>)
    ensures |Bytes(buffer)| == 3 * |buffer|
    ensures forall i :: 0 <= i < |buffer| ==>
      Bytes(buffer)[3 * i] == ChannelByte(buffer[i].x)
      && Bytes(buffer)[3 * i + 1] == ChannelByte(buffer[i].y)
      && Bytes(buffer)[3 * i + 2] == ChannelByte(buffer[i].z)
  {
    if buffer != [] {
      var prefix := buffer[..|buffer| - 1];
      BytesLayout(prefix);
      forall i | 0 <= i < |buffer|
        ensures Bytes(buffer)[3 * i] == ChannelByte(buffer[i].x)
          && Bytes(buffer)[3 * i + 1] == ChannelByte(buffer[i].y)
          && Bytes(buffer)[3 * i + 2] == ChannelByte(buffer[i].z)
      {
        if i < |prefix| {
          assert buffer[i] == prefix[i];
        }
      }
    }
  }

  /** The quantisation loop: appends the three channel bytes of every
      film pixel, in order, to an initially empty byte vector. */
  method ToBytes(buffer: seq<Vec3>) returns (data: seq<Byte>)
    ensures data == Bytes(buffer)
    ensures |data| == 3 * |buffer|
    ensures forall i :: 0 <= i < |buffer| ==>
      data[3 * i] == ChannelByte(buffer[i].x)
      && data[3 * i + 1] == ChannelByte(buffer[i].y)
      && data[3 * i + 2] == ChannelByte(buffer[i].z)
  {
    data := [];
    for k := 0 to |buffer|
      invariant data == Bytes(buffer[..k])
    {
      var color := buffer[k];
      var x := ChannelByte(color.x);
      var y := ChannelByte(color.y);
      var z := ChannelByte(color.z);
      assert buffer[..k + 1][..k] == buffer[..k];
      data := data + [x];
      data := data + [y];
      data := data + [z];
    }
    assert buffer[..|buffer|] == buffer;
    BytesLayout(buffer);
  }
}
