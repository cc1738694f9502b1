/**
 The estimate in closed form. Every buffer the estimator turns into a number
 reads four times the sum of its colour (non-alpha) bytes divided by three
 times its length, before the ambient adjustment. This module relates the
 byte-level sum to the decoded pixels and to the two means of the estimator.
 */
module ColourSums {
  import opened Frame
  import opened Estimator

  /** The colour-channel total of a pixel sequence, taken from the front. */
  lemma {:induction false} ChannelTotalCons(p: Pixel, ps: seq<Pixel>)
    ensures ChannelTotal([p] + ps) == p.r as int + p.g + p.b + ChannelTotal(ps)
  {
    if |ps| > 0 {
      var n := |ps| - 1;
      assert ([p] + ps)[..n + 1] == [p] + ps[..n];
      ChannelTotalCons(p, ps[..n]);
    }
  }

  /** On a whole-pixel buffer the colour-byte sum is the colour-channel total of its pixels. */
  lemma {:induction false} ColourSumOfPixels(data: seq<Byte>)
    requires WholePixels(data)
    ensures ColourByteSum(data) == ChannelTotal(Pixels(data))
  {
    if |data| > 0 {
      PixelsTail(data);
      ColourSumOfPixels(data[4..]);
      ChannelTotalCons(PixelAt(data, 0), Pixels(data[4..]));
    }
  }

  /** On a buffer of length 4k + 3 the trailing triple's bytes all count as colour bytes. */
  lemma {:induction false} RaggedColourSum(data: seq<Byte>)
    requires |data| % 4 == 3
    ensures ColourByteSum(data) == ColourByteSum(WholePart(data)) + data[|data| - 3] + data[|data| - 2] + data[|data| - 1]
  {
    if |data| > 3 {
      var rest := data[4..];
      assert WholePart(rest) == WholePart(data)[4..];
      RaggedColourSum(rest);
    }
  }

  /** A total of c / 3 over a count of n / 4 is 4c / 3n. */
  lemma ThirdOverQuarter(m: real, t: real, c: int, count: real, n: int)
    requires n > 0 && t == c as real / 3.0 && count == n as real / 4.0 && m == t / count
    ensures m == (4 * c) as real / (3 * n) as real
  {
  }

  /** Pixels whose brightness total is c / 3, four bytes each in n bytes, have mean 4c / 3n. */
  lemma MeanOfThirds(ps: seq<Pixel>, c: int, n: int)
    requires |ps| > 0 && 4 * |ps| == n && TotalBrightness(ps) == c as real / 3.0
    ensures MeanBrightness(ps) == (4 * c) as real / (3 * n) as real
  {
    ThirdOverQuarter(MeanBrightness(ps), TotalBrightness(ps), c, |ps| as real, n);
  }

  /** The mean of a non-empty whole-pixel buffer is 4·(colour-byte sum) / (3·length). */
  lemma WholeClosedForm(data: seq<Byte>)
    requires |data| > 0 && WholePixels(data)
    ensures MeanBrightness(Pixels(data)) == (4 * ColourByteSum(data)) as real / (3 * |data|) as real
  {
    var ps := Pixels(data);
    TotalIsChannelThird(ps);
    ColourSumOfPixels(data);
    MeanOfThirds(ps, ColourByteSum(data), |data|);
  }

  /** On a buffer of length 4k + 3 the loop's total is a third of the colour-byte sum. */
  lemma RaggedTotal(data: seq<Byte>)
    requires |data| % 4 == 3
    ensures TotalBrightness(Pixels(WholePart(data))) + TailBrightness(data) == ColourByteSum(data) as real / 3.0
  {
    var ps := Pixels(WholePart(data));
    var n, total := |data|, ChannelTotal(ps);
    var tail := data[n - 3] as int + data[n - 2] + data[n - 1];
    assert TotalBrightness(ps) == total as real / 3.0 by {
      TotalIsChannelThird(ps);
    }
    assert TailBrightness(data) == tail as real / 3.0;
    assert ColourByteSum(data) == total + tail by {
      ColourSumOfPixels(WholePart(data));
      RaggedColourSum(data);
    }
  }

  /** The ragged mean of a buffer of length 4k + 3 is 4·(colour-byte sum) / (3·length) too. */
  lemma RaggedClosedForm(data: seq<Byte>)
    requires |data| % 4 == 3
    ensures RaggedMean(data) == (4 * ColourByteSum(data)) as real / (3 * |data|) as real
  {
    var t := TotalBrightness(Pixels(WholePart(data))) + TailBrightness(data);
    assert RaggedMean(data) == t / (|data| as real / 4.0);
    assert t == ColourByteSum(data) as real / 3.0 by {
      RaggedTotal(data);
    }
    ThirdOverQuarter(RaggedMean(data), t, ColourByteSum(data), |data| as real / 4.0, |data|);
  }

  /**
   The estimate in closed form, for every buffer that has one: four times
   the sum of all colour (non-alpha) bytes, divided by three times the
   buffer length, then adjusted for ambient light.
   */
  lemma ClosedForm(data: seq<Byte>, ambient: Option<real>)
    requires |data| > 0 && (WholePixels(data) || |data| % 4 == 3)
    ensures Turbidity(data, ambient) == Value(Adjust((4 * ColourByteSum(data)) as real / (3 * |data|) as real, ambient))
  {
    if WholePixels(data) {
      WholeClosedForm(data);
    } else {
      RaggedClosedForm(data);
    }
  }
}
