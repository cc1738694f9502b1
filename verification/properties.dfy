/**
 Properties of the turbidity estimate: falsy and 100 lux readings leave the
 mean unscaled, it never reads alpha, it does not depend on pixel order, a
 uniformly grey frame gives its grey level back, the 2×2 black/white
 checkerboard reads 127.5 (63.75 at 50 lux), and a buffer of length 4k + 3
 overstates the mean because its trailing triple counts as only three
 quarters of a pixel in the divisor.
 */
module TurbidityProperties {
  import opened Frame
  import opened Estimator
  import opened ColourSums

  /** Two buffers that differ at most in their alpha bytes (offsets 4k + 3). */
  predicate DifferOnlyInAlpha(a: seq<Byte>, b: seq<Byte>) {
    |a| == |b| &&
    forall i :: 0 <= i < |a| && i % 4 != 3 ==> a[i] == b[i]
  }

  /** Buffers that differ only in alpha have the same colour-byte sum. */
  lemma {:induction false} AlphaFreeColourSum(a: seq<Byte>, b: seq<Byte>)
    requires DifferOnlyInAlpha(a, b)
    ensures ColourByteSum(a) == ColourByteSum(b)
  {
    if |a| > 0 { assert a[0] == b[0]; }
    if |a| > 1 { assert a[1] == b[1]; }
    if |a| > 2 { assert a[2] == b[2]; }
    if |a| > 3 {
      assert DifferOnlyInAlpha(a[4..], b[4..]) by {
        forall i | 0 <= i < |a| - 4 && i % 4 != 3
          ensures a[4..][i] == b[4..][i]
        {
          assert (i + 4) % 4 == i % 4;
        }
      }
      AlphaFreeColourSum(a[4..], b[4..]);
    }
  }

  /** Alpha is never read: changing only alpha bytes leaves the estimate unchanged. */
  lemma AlphaIgnored(a: seq<Byte>, b: seq<Byte>, ambient: Option<real>)
    requires DifferOnlyInAlpha(a, b)
    ensures Turbidity(a, ambient) == Turbidity(b, ambient)
  {
    if |a| > 0 && (WholePixels(a) || |a| % 4 == 3) {
      AlphaFreeColourSum(a, b);
      ClosedForm(a, ambient);
      ClosedForm(b, ambient);
    }
  }

  /**
   A 0 lux reading is falsy and, like no reading at all, leaves the mean
   unscaled (it does not zero it); a 100 lux reading scales by exactly 1.
   */
  lemma UnscaledReadings(data: seq<Byte>)
    ensures Turbidity(data, Some(0.0)) == Turbidity(data, None)
    ensures Turbidity(data, Some(100.0)) == Turbidity(data, None)
  {
  }

  // Pixel order

  /** Removing one pixel from the sum takes away exactly its brightness. */
  lemma {:induction false} TotalWithout(t: seq<Pixel>, j: nat)
    requires j < |t|
    ensures TotalBrightness(t) == TotalBrightness(t[..j] + t[j + 1..]) + Brightness(t[j])
  {
    var n := |t| - 1;
    if j < n {
      var init := t[..n];
      TotalWithout(init, j);
      var rest := t[..j] + t[j + 1..];
      assert rest[..|rest| - 1] == init[..j] + init[j + 1..];
      assert rest[|rest| - 1] == t[n];
    } else {
      assert t[..j] + t[j + 1..] == t[..n];
    }
  }

  /** The brightness total depends only on the multiset of pixels. */
  lemma {:induction false} TotalPermutation(s: seq<Pixel>, t: seq<Pixel>)
    requires multiset(s) == multiset(t)
    ensures TotalBrightness(s) == TotalBrightness(t)
  {
    if |s| > 0 {
      var n := |s| - 1;
      var x := s[n];
      assert x in multiset(t);
      var j :| 0 <= j < |t| && t[j] == x;
      TotalWithout(t, j);
      var t' := t[..j] + t[j + 1..];
      assert t == t[..j] + [x] + t[j + 1..];
      assert s == s[..n] + [x];
      assert multiset(s) == multiset(s[..n]) + multiset{x};
      assert multiset(t) == multiset(t[..j]) + multiset{x} + multiset(t[j + 1..]);
      assert multiset(t') == multiset(t[..j]) + multiset(t[j + 1..]);
      assert multiset(s[..n]) == multiset(s) - multiset{x};
      assert multiset(t') == multiset(t) - multiset{x};
      TotalPermutation(s[..n], t');
    }
  }

  /** Two whole-pixel buffers holding the same pixels in any order have the same estimate. */
  lemma PixelOrderIrrelevant(a: seq<Byte>, b: seq<Byte>, ambient: Option<real>)
    requires WholePixels(a) && WholePixels(b)
    requires multiset(Pixels(a)) == multiset(Pixels(b))
    ensures Turbidity(a, ambient) == Turbidity(b, ambient)
  {
    var ps, qs := Pixels(a), Pixels(b);
    assert |ps| == |multiset(ps)| == |qs|;
    if |a| > 0 {
      TotalPermutation(ps, qs);
      TotalIsChannelThird(ps);
      TotalIsChannelThird(qs);
    }
  }

  /** The buffer with the pixels at positions p and q exchanged, byte by byte. */
  function SwapPixels(data: seq<Byte>, p: nat, q: nat): (d: seq<Byte>)
    requires WholePixels(data) && p < |data| / 4 && q < |data| / 4
    ensures WholePixels(d) && |d| == |data|
  {
    seq(|data|, i requires 0 <= i < |data| =>
      if i / 4 == p then data[4 * q + i % 4]
      else if i / 4 == q then data[4 * p + i % 4]
      else data[i])
  }

  /** Decoded, the swapped buffer is the pixel sequence with entries p and q exchanged. */
  lemma SwapPixelsDecodes(data: seq<Byte>, p: nat, q: nat)
    requires WholePixels(data) && p < |data| / 4 && q < |data| / 4
    ensures Pixels(SwapPixels(data, p, q)) == Pixels(data)[p := Pixels(data)[q]][q := Pixels(data)[p]]
  {
  }

  /** Exchanging the positions of two pixels leaves the estimate unchanged. */
  lemma SwapKeepsTurbidity(data: seq<Byte>, p: nat, q: nat, ambient: Option<real>)
    requires WholePixels(data) && p < |data| / 4 && q < |data| / 4
    ensures Turbidity(SwapPixels(data, p, q), ambient) == Turbidity(data, ambient)
  {
    var ps := Pixels(data);
    var swapped := ps[p := ps[q]][q := ps[p]];
    assert multiset(swapped) == multiset(ps);
    SwapPixelsDecodes(data, p, q);
    PixelOrderIrrelevant(SwapPixels(data, p, q), data, ambient);
  }

  // Uniform frames

  /** n pixels of grey level v have brightness total n·v. */
  lemma {:induction false} UniformTotal(ps: seq<Pixel>, v: Byte)
    requires forall k :: 0 <= k < |ps| ==> ps[k].r == v && ps[k].g == v && ps[k].b == v
    ensures TotalBrightness(ps) == |ps| as real * v as real
  {
    if |ps| > 0 {
      UniformTotal(ps[..|ps| - 1], v);
    }
  }

  /** Every colour byte (every offset not of the form 4k + 3) equals v. */
  predicate UniformColour(data: seq<Byte>, v: Byte) {
    forall i :: 0 <= i < |data| && i % 4 != 3 ==> data[i] == v
  }

  /** Every decoded pixel of a uniformly coloured buffer has R = G = B = v. */
  lemma UniformPixels(data: seq<Byte>, v: Byte)
    requires WholePixels(data) && UniformColour(data, v)
    ensures forall k :: 0 <= k < |Pixels(data)| ==>
      Pixels(data)[k].r == v && Pixels(data)[k].g == v && Pixels(data)[k].b == v
  {
  }

  /** A product divided by one of its factors gives the other factor back. */
  lemma DivideOut(c: real, v: real, m: real)
    requires m > 0.0 && c == v * m
    ensures c / m == v
  {
  }

  /** A frame whose every pixel has R = G = B = v has mean brightness exactly v. */
  lemma UniformFrame(data: seq<Byte>, v: Byte, ambient: Option<real>)
    requires |data| > 0 && WholePixels(data)
    requires UniformColour(data, v)
    ensures Turbidity(data, ambient) == Value(Adjust(v as real, ambient))
    ensures Turbidity(data, None) == Value(v as real)
  {
    var ps := Pixels(data);
    UniformPixels(data, v);
    UniformTotal(ps, v);
    DivideOut(TotalBrightness(ps), v as real, |ps| as real);
    assert MeanBrightness(ps) == v as real;
  }

  /** An all-black frame reads 0 whatever the ambient light. */
  lemma AllBlackFrame(data: seq<Byte>, ambient: Option<real>)
    requires |data| > 0 && WholePixels(data) && UniformColour(data, 0)
    ensures Turbidity(data, ambient) == Value(0.0)
  {
    UniformFrame(data, 0, ambient);
  }

  /** An all-white frame reads 255 without a usable light reading. */
  lemma AllWhiteFrame(data: seq<Byte>)
    requires |data| > 0 && WholePixels(data) && UniformColour(data, 255)
    ensures Turbidity(data, None) == Value(255.0)
  {
    UniformFrame(data, 255, None);
  }

  // The 2×2 checkerboard: black, white, black, white (alpha opaque)

  const Checkerboard: seq<Byte> :=
    [0, 0, 0, 255, 255, 255, 255, 255, 0, 0, 0, 255, 255, 255, 255, 255]

  /** Without a light reading the checkerboard reads 127.5; at 50 lux, 63.75. */
  lemma CheckerboardReadings()
    ensures Turbidity(Checkerboard, None) == Value(127.5)
    ensures Turbidity(Checkerboard, Some(50.0)) == Value(63.75)
  {
    var ps := Pixels(Checkerboard);
    var black, white := Pixel(0, 0, 0, 255), Pixel(255, 255, 255, 255);
    assert ps == [black, white, black, white];
    assert ps[..1] == [black] && ps[..1][..0] == [];
    assert ps[..2][..1] == ps[..1] && ps[..3][..2] == ps[..2] && ps[..4][..3] == ps[..3];
    assert TotalBrightness(ps[..2]) == 255.0;
    assert TotalBrightness(ps) == 510.0;
  }

  // Buffers of length 4k + 3

  /** A common factor of 3 cancels from a quotient. */
  lemma CancelThree(x: int, y: int)
    requires y > 0
    ensures (3 * x) as real / (3 * y) as real == x as real / y as real
  {
  }

  /** Four more bytes hold three more colour bytes. */
  lemma ColourCountStep(v: int, n: int)
    requires n >= 4
    ensures v * (n - n / 4) == 3 * v + v * (n - 4 - (n - 4) / 4)
  {
    assert (n - 4) / 4 == n / 4 - 1;
  }

  /** Every colour byte of a uniformly coloured buffer contributes v to the colour-byte sum. */
  lemma {:induction false} UniformColourSum(data: seq<Byte>, v: Byte)
    requires UniformColour(data, v)
    ensures ColourByteSum(data) == v * (|data| - |data| / 4)
  {
    var n := |data|;
    if n > 0 { assert data[0] == v; }
    if n > 1 { assert data[1] == v; }
    if n > 2 { assert data[2] == v; }
    if n > 3 {
      assert UniformColour(data[4..], v) by {
        forall i | 0 <= i < n - 4 && i % 4 != 3
          ensures data[4..][i] == v
        {
          assert (i + 4) % 4 == i % 4;
        }
      }
      UniformColourSum(data[4..], v);
      ColourCountStep(v, n);
    }
  }

  /** With c = v·(n - n/4) colour-byte total and n = 4k + 3, 4c / 3n is v·(n + 1) / n. */
  lemma UniformRaggedArithmetic(v: int, n: nat, c: int)
    requires n % 4 == 3 && c == v * (n - n / 4)
    ensures (4 * c) as real / (3 * n) as real == (v * (n + 1)) as real / n as real
  {
    var k := n / 4;
    assert n - n / 4 == 3 * (k + 1);
    assert 4 * c == 3 * (v * (n + 1)) by {
      assert 4 * (v * (3 * (k + 1))) == 3 * (v * (4 * k + 4));
    }
    CancelThree(v * (n + 1), n);
  }

  /**
   A uniformly grey buffer of length n = 4k + 3 reads v·(n + 1)/n, more
   than its grey level v whenever v > 0: the trailing triple is summed as a
   whole pixel but counted as three quarters of one.
   */
  lemma UniformRaggedFrame(data: seq<Byte>, v: Byte)
    requires |data| % 4 == 3 && UniformColour(data, v)
    ensures Turbidity(data, None) == Value((v * (|data| + 1)) as real / |data| as real)
  {
    UniformColourSum(data, v);
    ClosedForm(data, None);
    UniformRaggedArithmetic(v, |data|, ColourByteSum(data));
  }

  /**
   A lone R, G, B triple with no alpha byte is read as 3/4 of a pixel:
   30, 60, 90 averages 60 and reads 80, and a white triple reads 340.
   */
  lemma RaggedReadings()
    ensures Turbidity([30, 60, 90], None) == Value(80.0)
    ensures Turbidity([255, 255, 255], None) == Value(340.0)
  {
    ClosedForm([30, 60, 90], None);
    ClosedForm([255, 255, 255], None);
  }
}
