/**
 A captured camera frame, as the canvas hands it over: a flat buffer of
 8-bit channel values laid out R, G, B, A for each pixel in turn. This
 module gives the buffer its pixel structure (decoding the flat bytes into
 pixels and encoding pixels back into bytes) and says which buffers are
 whole frames.
 */
module Frame {

  /** One channel value of a clamped 8-bit image buffer. */
  type Byte = x: int | 0 <= x < 256

  /** A pixel occupies four consecutive bytes of the buffer: R, G, B, then A. */
  datatype Pixel = Pixel(r: Byte, g: Byte, b: Byte, a: Byte)

  /** A buffer made of whole pixels only. */
  predicate WholePixels(data: seq<Byte>) {
    |data| % 4 == 0
  }

  /** The longest prefix of the buffer made of whole pixels. */
  function WholePart(data: seq<Byte>): (w: seq<Byte>)
    ensures WholePixels(w) && w <= data && |data| - |w| == |data| % 4
  {
    data[..|data| - |data| % 4]
  }

  /** The pixel whose red byte sits at offset 4*k. */
  function PixelAt(data: seq<Byte>, k: nat): (p: Pixel)
    requires 4 * k + 3 < |data|
    ensures p.r == data[4 * k] && p.g == data[4 * k + 1]
    ensures p.b == data[4 * k + 2] && p.a == data[4 * k + 3]
  {
    Pixel(data[4 * k], data[4 * k + 1], data[4 * k + 2], data[4 * k + 3])
  }

  /** Decodes a whole-pixel buffer into its pixels, in buffer order. */
  function Pixels(data: seq<Byte>): (ps: seq<Pixel>)
    requires WholePixels(data)
    ensures 4 * |ps| == |data|
  {
    seq(|data| / 4, k requires 0 <= k < |data| / 4 => PixelAt(data, k))
  }

  /** The pixels of a buffer after its first pixel are the pixels of the rest. */
  lemma PixelsTail(data: seq<Byte>)
    requires WholePixels(data) && |data| > 0
    ensures Pixels(data) == [PixelAt(data, 0)] + Pixels(data[4..])
  {
  }

  /** Encodes pixels back into a flat R, G, B, A buffer. */
  function Flatten(ps: seq<Pixel>): (data: seq<Byte>)
    ensures WholePixels(data) && |data| == 4 * |ps|
  {
    if |ps| == 0 then []
    else [ps[0].r, ps[0].g, ps[0].b, ps[0].a] + Flatten(ps[1..])
  }

  /** Decoding an encoded pixel sequence gives the same pixels back. */
  lemma {:induction false} DecodeEncode(ps: seq<Pixel>)
    ensures Pixels(Flatten(ps)) == ps
  {
    if |ps| > 0 {
      var data := Flatten(ps);
      assert data[4..] == Flatten(ps[1..]);
      PixelsTail(data);
      DecodeEncode(ps[1..]);
    }
  }

  /** Encoding the decoded pixels of a whole-pixel buffer gives the buffer back. */
  lemma {:induction false} EncodeDecode(data: seq<Byte>)
    requires WholePixels(data)
    ensures Flatten(Pixels(data)) == data
  {
    if |data| > 0 {
      var ps, rest := Pixels(data), Pixels(data[4..]);
      PixelsTail(data);
      assert ps[1..] == rest;
      EncodeDecode(data[4..]);
      assert [data[0], data[1], data[2], data[3]] == data[..4];
      assert data[..4] + data[4..] == data;
    }
  }
}
