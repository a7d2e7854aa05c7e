/** Index arithmetic of the pixel-to-tensor copy in getInputTensor.

    Every flat offset the copy loop computes has the same mixed-radix shape
    i*(J*K) + j*K + k with j < J and k < K: the channel-major ("nchw") write
    offset, the interleaved write offset and the RGBA read index are all
    instances of it.  This module proves once that such an offset is in
    bounds, and that it is a bijection onto [0, I*J*K) with an explicit
    inverse, and then specialises the facts to the three source expressions.
 */
module TensorLayout {

  /** The mixed-radix offset of (i, j, k) in a grid of rows of J blocks of K. */
  function Linear(i: nat, j: nat, k: nat, bJ: nat, bK: nat): nat
  {
    i * (bJ * bK) + j * bK + k
  }

  lemma MulLeftMonotone(a: nat, b: nat, m: nat)
    requires a <= b
    ensures a * m <= b * m
  {
  }

  /** Euclidean division of q*d + r by d recovers the quotient and the remainder. */
  lemma {:induction false} DivModOfSum(q: nat, r: nat, d: nat)
    requires 0 <= r < d
    ensures (q * d + r) / d == q
    ensures (q * d + r) % d == r
  {
    var x := q * d + r;
    var q', r' := x / d, x % d;
    assert x == q' * d + r';
    if q' < q {
      MulLeftMonotone(q' + 1, q, d);
      assert false;
    } else if q < q' {
      MulLeftMonotone(q + 1, q', d);
      assert false;
    }
  }

  /** Equal sums q*d + r with remainders below d have equal parts. */
  lemma PartsUnique(q1: nat, r1: nat, q2: nat, r2: nat, d: nat)
    requires r1 < d && r2 < d
    requires q1 * d + r1 == q2 * d + r2
    ensures q1 == q2 && r1 == r2
  {
    DivModOfSum(q1, r1, d);
    DivModOfSum(q2, r2, d);
  }

  /** j*K + k with j < J and k < K is below J*K. */
  lemma InnerBound(j: nat, k: nat, bJ: nat, bK: nat)
    requires j < bJ && k < bK
    ensures j * bK + k < bJ * bK
  {
    MulLeftMonotone(j + 1, bJ, bK);
    assert (j + 1) * bK == j * bK + bK;
  }

  /** An offset of an in-range triple is in range. */
  lemma {:induction false} LinearBound(i: nat, j: nat, k: nat, bI: nat, bJ: nat, bK: nat)
    requires i < bI && j < bJ && k < bK
    ensures Linear(i, j, k, bJ, bK) < bI * (bJ * bK)
  {
    InnerBound(j, k, bJ, bK);
    InnerBound(i, j * bK + k, bI, bJ * bK);
  }

  /** Offsets of in-range triples are pairwise distinct. */
  lemma {:induction false} LinearInjective(i1: nat, j1: nat, k1: nat, i2: nat, j2: nat, k2: nat, bJ: nat, bK: nat)
    requires j1 < bJ && k1 < bK && j2 < bJ && k2 < bK
    requires Linear(i1, j1, k1, bJ, bK) == Linear(i2, j2, k2, bJ, bK)
    ensures i1 == i2 && j1 == j2 && k1 == k2
  {
    InnerBound(j1, k1, bJ, bK);
    InnerBound(j2, k2, bJ, bK);
    PartsUnique(i1, j1 * bK + k1, i2, j2 * bK + k2, bJ * bK);
    PartsUnique(j1, k1, j2, k2, bK);
  }

  /** A quotient of a sum below n*d is below n. */
  lemma {:induction false} QuotientBelow(q: nat, r: nat, d: nat, n: nat)
    requires q * d + r < n * d
    ensures q < n
  {
    if n <= q {
      MulLeftMonotone(n, q, d);
    }
  }

  /** A triple of digits: the three coordinates an offset stands for. */
  datatype Triple = Triple(i: nat, j: nat, k: nat)

  /** The inverse of Linear on [0, I*J*K). */
  function Split(x: nat, bI: nat, bJ: nat, bK: nat): (t: Triple)
    requires x < bI * (bJ * bK)
    ensures t.i < bI && t.j < bJ && t.k < bK
    ensures Linear(t.i, t.j, t.k, bJ, bK) == x
  {
    var block := bJ * bK;
    assert block != 0;
    assert bK != 0;
    var i, rest := x / block, x % block;
    var j, k := rest / bK, rest % bK;
    QuotientBelow(i, rest, block, bI);
    QuotientBelow(j, k, bK, bJ);
    Triple(i, j, k)
  }

  /** Split undoes Linear: each in-range triple is the one its offset stands for. */
  lemma SplitLinear(i: nat, j: nat, k: nat, bI: nat, bJ: nat, bK: nat)
    requires i < bI && j < bJ && k < bK
    ensures Linear(i, j, k, bJ, bK) < bI * (bJ * bK)
    ensures Split(Linear(i, j, k, bJ, bK), bI, bJ, bK) == Triple(i, j, k)
  {
    LinearBound(i, j, k, bI, bJ, bK);
    var t := Split(Linear(i, j, k, bJ, bK), bI, bJ, bK);
    LinearInjective(t.i, t.j, t.k, i, j, k, bJ, bK);
  }

  // ---------------------------------------------------------------------
  // The three offset expressions of the copy loop, as the source writes them.

  /** Number of bytes per canvas pixel: R, G, B and A. */
  const ImageChannels: nat := 4

  /** Write offset when inputLayout is 'nchw': c*width*height + h*width + w. */
  function ChannelMajorOffset(c: nat, h: nat, w: nat, height: nat, width: nat): (r: nat)
    ensures r == Linear(c, h, w, height, width)
  {
    assert c * width * height == c * (height * width);
    c * width * height + h * width + w
  }

  /** Write offset for any other inputLayout: h*width*channels + w*channels + c. */
  function InterleavedOffset(c: nat, h: nat, w: nat, width: nat, channels: nat): (r: nat)
    ensures r == Linear(h, w, c, width, channels)
  {
    assert h * width * channels == h * (width * channels);
    h * width * channels + w * channels + c
  }

  /** Index into the RGBA pixel data of channel k of the pixel in row h, column w. */
  function PixelIndex(h: nat, w: nat, k: nat, width: nat): (r: nat)
    ensures r == Linear(h, w, k, width, ImageChannels)
  {
    assert h * width * ImageChannels == h * (width * ImageChannels);
    h * width * ImageChannels + w * ImageChannels + k
  }

  /** Every pixel read of an in-range (h, w) and a channel below 4 is inside
      the width*height*4 bytes the canvas returns. */
  lemma PixelIndexInBounds(h: nat, w: nat, k: nat, height: nat, width: nat)
    requires h < height && w < width && k < ImageChannels
    ensures PixelIndex(h, w, k, width) < width * height * ImageChannels
  {
    LinearBound(h, w, k, height, width, ImageChannels);
    assert height * (width * ImageChannels) == width * height * ImageChannels;
  }
}
