/**
 The estimator as the app writes it: one pass over the bytes with stride 4,
 then a division by the pixel count `length / 4`, then the ambient
 adjustment. The pass is proved to compute the estimate `Turbidity`
 defines, NaN outcomes included, and its closed form.
 */
module Calculation {
  import opened Frame
  import opened Estimator
  import opened ColourSums

  /** The loop's mean on a whole-pixel buffer is the estimate's mean. */
  lemma WholeLoopMean(data: seq<Byte>, total: real)
    requires |data| > 0 && WholePixels(data)
    requires total == TotalBrightness(Pixels(data))
    ensures total / (|data| as real / 4.0) == MeanBrightness(Pixels(data))
    ensures total / (|data| as real / 4.0) == (4 * ColourByteSum(data)) as real / (3 * |data|) as real
  {
    WholeClosedForm(data);
  }

  /** The loop's mean on a buffer of length 4k + 3 is the ragged mean. */
  lemma RaggedLoopMean(data: seq<Byte>, total: real)
    requires |data| % 4 == 3
    requires total == TotalBrightness(Pixels(WholePart(data))) + TailBrightness(data)
    ensures total / (|data| as real / 4.0) == RaggedMean(data)
    ensures total / (|data| as real / 4.0) == (4 * ColourByteSum(data)) as real / (3 * |data|) as real
  {
    RaggedClosedForm(data);
  }

  /**
   What the pass over a buffer that is not poisoned has summed, divided by
   `length / 4` and adjusted, is the estimate and its closed form.
   */
  lemma LoopMean(data: seq<Byte>, total: real, ambient: Option<real>)
    requires |data| > 0 && (WholePixels(data) || |data| % 4 == 3)
    requires WholePixels(data) ==> total == TotalBrightness(Pixels(data))
    requires !WholePixels(data) ==> total == TotalBrightness(Pixels(WholePart(data))) + TailBrightness(data)
    ensures Turbidity(data, ambient) == Value(Adjust(total / (|data| as real / 4.0), ambient))
    ensures Turbidity(data, ambient) == Value(Adjust((4 * ColourByteSum(data)) as real / (3 * |data|) as real, ambient))
  {
    if WholePixels(data) {
      WholeLoopMean(data, total);
    } else {
      RaggedLoopMean(data, total);
    }
  }

  /** Adding the pixel at offset i to the total of the pixels before it. */
  lemma WholeStep(data: seq<Byte>, i: nat)
    requires i % 4 == 0 && i + 4 <= |WholePart(data)|
    ensures TotalBrightness(Pixels(WholePart(data))[..i / 4 + 1])
         == TotalBrightness(Pixels(WholePart(data))[..i / 4]) + (data[i] as int + data[i + 1] + data[i + 2]) as real / 3.0
  {
    var ps := Pixels(WholePart(data));
    assert ps[..i / 4 + 1][..i / 4] == ps[..i / 4];
    assert ps[i / 4] == PixelAt(WholePart(data), i / 4);
  }

  /**
   The loop of the estimator: a single pass over the buffer with stride 4,
   adding the mean of the bytes at offsets i, i + 1 and i + 2 to a running
   total. A read past the end makes the total NaN, tracked by `poisoned`;
   that happens exactly when the last pixel lacks its green or blue byte.
   */
  method BrightnessPass(data: seq<Byte>) returns (total: real, poisoned: bool)
    ensures poisoned <==> |data| % 4 == 1 || |data| % 4 == 2
    ensures !poisoned && WholePixels(data) ==> total == TotalBrightness(Pixels(data))
    ensures !poisoned && !WholePixels(data) ==> total == TotalBrightness(Pixels(WholePart(data))) + TailBrightness(data)
  {
    ghost var w := |WholePart(data)|;
    ghost var ps := Pixels(WholePart(data));
    total := 0.0;
    poisoned := false;
    var i := 0;
    while i < |data|
      invariant i % 4 == 0 && 0 <= i
      invariant i <= w ==> !poisoned && total == TotalBrightness(ps[..i / 4])
      invariant i > w ==> i == w + 4 && w < |data|
      invariant i > w ==> (poisoned <==> |data| % 4 != 3)
      invariant i > w && !poisoned ==> total == TotalBrightness(ps) + TailBrightness(data)
    {
      if i + 2 < |data| {
        var brightness := (data[i] as int + data[i + 1] + data[i + 2]) as real / 3.0;
        if i < w {
          WholeStep(data, i);
        } else {
          assert ps[..i / 4] == ps;
        }
        total := total + brightness;
      } else {
        poisoned := true;
      }
      i := i + 4;
    }
    if WholePixels(data) {
      assert ps[..i / 4] == ps && WholePart(data) == data;
    }
  }

  /**
   The estimator as the app writes it: the pass over the buffer, then the
   division of the total by the pixel count `length / 4` and the ambient
   adjustment. An empty buffer makes the division 0 / 0.
   */
  method CalculateTurbidity(data: seq<Byte>, ambient: Option<real>) returns (e: Estimate)
    ensures e == Turbidity(data, ambient)
    ensures e.Value? ==> e.turbidity == Adjust((4 * ColourByteSum(data)) as real / (3 * |data|) as real, ambient)
  {
    var total, poisoned := BrightnessPass(data);
    var pixelCount := |data| as real / 4.0;
    if poisoned {
      e := NaN(MissingChannel);
    } else if pixelCount == 0.0 {
      e := NaN(EmptyFrame);
    } else {
      var avgBrightness := total / pixelCount;
      e := Value(Adjust(avgBrightness, ambient));
      LoopMean(data, total, ambient);
    }
  }
}
