/**
 The turbidity estimate of a captured frame: the mean over all pixels of
 each pixel's colour brightness (the average of its red, green and blue
 channels, alpha ignored), scaled by the ambient illuminance relative to a
 reference of 100 lux when a usable reading is present.

 Arithmetic is exact (`real`); the app computes in IEEE doubles. Where the
 app yields NaN (an empty buffer, or a buffer whose last pixel lacks its
 green or blue byte) the model returns an explicit `NaN` outcome naming the
 cause. A buffer whose last pixel lacks only its alpha byte still gives a
 number, as it does in the app.
 */
module Estimator {
  import opened Frame

  /** Why the estimate is not a number. */
  datatype Cause =
    | EmptyFrame      // zero pixels: the mean is 0 / 0
    | MissingChannel  // the last pixel has no green or no blue byte: the undefined read poisons the total

  datatype Estimate = Value(turbidity: real) | NaN(cause: Cause)

  /** The ambient-light slot: `None` until the sensor has delivered a reading. */
  datatype Option<T> = None | Some(value: T)

  /** The mean of three colour channels. */
  function ChannelMean(r: Byte, g: Byte, b: Byte): (v: real)
    ensures 0.0 <= v <= 255.0
    ensures r == g == b ==> v == r as real
  {
    (r as int + g + b) as real / 3.0
  }

  /** Brightness of one pixel: the mean of its three colour channels. */
  function Brightness(p: Pixel): (v: real)
    ensures 0.0 <= v <= 255.0
    ensures p.r == p.g == p.b ==> v == p.r as real
  {
    ChannelMean(p.r, p.g, p.b)
  }

  /** Sum of the pixel brightnesses, accumulated first pixel to last. */
  function TotalBrightness(ps: seq<Pixel>): (t: real)
    ensures 0.0 <= t <= 255.0 * |ps| as real
  {
    if |ps| == 0 then 0.0
    else TotalBrightness(ps[..|ps| - 1]) + Brightness(ps[|ps| - 1])
  }

  /** Sum of the colour channels (R + G + B) of every pixel, as integers. */
  function ChannelTotal(ps: seq<Pixel>): (c: int)
    ensures 0 <= c <= 765 * |ps|
  {
    if |ps| == 0 then 0
    else ChannelTotal(ps[..|ps| - 1]) + ps[|ps| - 1].r + ps[|ps| - 1].g + ps[|ps| - 1].b
  }

  /**
   Sum of every byte of the buffer that is not an alpha byte: the first
   three bytes of each group of four, a trailing group of fewer than four
   bytes included.
   */
  function ColourByteSum(data: seq<Byte>): (c: int)
    ensures 0 <= c <= 255 * |data|
  {
    if |data| == 0 then 0
    else if |data| == 1 then data[0] as int
    else if |data| == 2 then data[0] as int + data[1]
    else if |data| == 3 then data[0] as int + data[1] + data[2]
    else data[0] as int + data[1] + data[2] + ColourByteSum(data[4..])
  }

  /** Dividing a total bounded by bound·n by n gives a value bounded by bound. */
  lemma QuotientBelow(t: real, n: real, bound: real)
    requires n > 0.0 && 0.0 <= t <= bound * n
    ensures 0.0 <= t / n <= bound
  {
  }

  /** Mean brightness of a non-empty pixel sequence. */
  function MeanBrightness(ps: seq<Pixel>): (m: real)
    requires |ps| > 0
    ensures 0.0 <= m <= 255.0
  {
    var n := |ps| as real;
    var t := TotalBrightness(ps);
    QuotientBelow(t, n, 255.0);
    t / n
  }

  /** Brightness of the R, G, B bytes that end a buffer of length 4k + 3. */
  function TailBrightness(data: seq<Byte>): (v: real)
    requires |data| % 4 == 3
    ensures 0.0 <= v <= 255.0
  {
    var n := |data|;
    ChannelMean(data[n - 3], data[n - 2], data[n - 1])
  }

  /**
   The mean the loop computes on a buffer of length 4k + 3: the k whole
   pixels and the trailing R, G, B triple all count as pixels, but the
   divisor is the fractional pixel count k + 3/4. It can exceed 255, by at
   most a third.
   */
  function RaggedMean(data: seq<Byte>): (m: real)
    requires |data| % 4 == 3
    ensures 0.0 <= m <= 340.0
  {
    var ps := Pixels(WholePart(data));
    var t := TotalBrightness(ps) + TailBrightness(data);
    var count := |data| as real / 4.0;
    assert t <= 340.0 * count;
    QuotientBelow(t, count, 340.0);
    t / count
  }

  /**
   JavaScript truthiness of the ambient-light slot: `null` (no reading yet)
   and `0` are falsy, every other number is truthy.
   */
  predicate UsableLight(ambient: Option<real>) {
    ambient.Some? && ambient.value != 0.0
  }

  /**
   The ambient-light adjustment of a mean brightness: a usable reading of
   L lux scales it by L relative to a reference of 100 lux.
   */
  function Adjust(mean: real, ambient: Option<real>): (v: real)
    ensures ambient.None? || ambient.value == 0.0 ==> v == mean
    ensures UsableLight(ambient) ==> v * 100.0 == mean * ambient.value
    ensures ambient == Some(100.0) ==> v == mean
  {
    if UsableLight(ambient) then mean * (ambient.value / 100.0) else mean
  }

  /** Brightness total is a third of the colour-channel total. */
  lemma {:induction false} TotalIsChannelThird(ps: seq<Pixel>)
    ensures TotalBrightness(ps) == ChannelTotal(ps) as real / 3.0
  {
    if |ps| > 0 {
      TotalIsChannelThird(ps[..|ps| - 1]);
    }
  }

  /**
   The turbidity estimate of a flat RGBA buffer under the given ambient
   light. Lengths 4k + 1 and 4k + 2 read past the end of the buffer; length
   4k + 3 does not, since alpha is never read.
   */
  function Turbidity(data: seq<Byte>, ambient: Option<real>): (e: Estimate)
    ensures e.Value? <==> |data| > 0 && (WholePixels(data) || |data| % 4 == 3)
    ensures |data| == 0 ==> e == NaN(EmptyFrame)
    ensures |data| % 4 == 1 || |data| % 4 == 2 ==> e == NaN(MissingChannel)
    ensures e.Value? && WholePixels(data) && !UsableLight(ambient) ==> 0.0 <= e.turbidity <= 255.0
    ensures e.Value? && !WholePixels(data) && !UsableLight(ambient) ==> 0.0 <= e.turbidity <= 340.0
  {
    if |data| == 0 then NaN(EmptyFrame)
    else if |data| % 4 == 1 || |data| % 4 == 2 then NaN(MissingChannel)
    else if WholePixels(data) then Value(Adjust(MeanBrightness(Pixels(data)), ambient))
    else Value(Adjust(RaggedMean(data), ambient))
  }
}
