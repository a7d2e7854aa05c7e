/** getInputTensor: the copy of a rendered canvas into a flat input tensor.

    The canvas drawing itself is not modelled: what the copy loop receives
    from getImageData is the parameter `pixels`, width*height RGBA pixels in
    row-major order, one byte per channel.  What is modelled is how the
    dimensions are read from inputDimensions, which byte each tensor slot
    takes (channel order RGB or BGR), the per-channel (value - mean) / std
    normalisation, and the write offset chosen by inputLayout.
 */
module InputTensor {
  import opened Wrappers
  import opened TensorLayout

  /** One byte of the canvas data (a Uint8ClampedArray element). */
  type Byte = b: nat | b < 256

  /** The fields of inputOptions that the copy uses.  An absent JavaScript
      property is None; scaledFlag and drawOptions only steer the drawing. */
  datatype InputOptions = InputOptions(
    inputDimensions: seq<nat>,
    mean: Option<seq<real>>,
    std: Option<seq<real>>,
    norm: bool,
    channelScheme: Option<string>,
    inputLayout: Option<string>)

  /** The three tensor dimensions as the copy loop names them. */
  datatype Dims = Dims(channels: nat, height: nat, width: nat)

  /** A tensor coordinate: channel, row and column. */
  datatype Coord = Coord(c: nat, h: nat, w: nat)

  /** The channel, height and width counts: the three dimensions after the
      batch, in that order, or as height, width, channels only when the
      layout is exactly 'nhwc'. */
  function Dimensions(o: InputOptions): (d: Dims)
    requires |o.inputDimensions| == 4
    ensures o.inputLayout == Some("nhwc") ==>
              o.inputDimensions[1..] == [d.height, d.width, d.channels]
    ensures o.inputLayout != Some("nhwc") ==>
              o.inputDimensions[1..] == [d.channels, d.height, d.width]
  {
    var dims := o.inputDimensions;
    if o.inputLayout == Some("nhwc") then Dims(dims[3], dims[1], dims[2])
    else Dims(dims[1], dims[2], dims[3])
  }

  /** The mean option, or four zeros when it is absent. */
  function Mean(o: InputOptions): seq<real>
  {
    if o.mean.Some? then o.mean.value else [0.0, 0.0, 0.0, 0.0]
  }

  /** The std option, or four ones when it is absent. */
  function Std(o: InputOptions): seq<real>
  {
    if o.std.Some? then o.std.value else [1.0, 1.0, 1.0, 1.0]
  }

  /** With mean and std absent, the first four channels keep their values. */
  lemma DefaultsKeepValues(o: InputOptions, c: nat, value: real)
    requires o.mean.None? && o.std.None? && c < ImageChannels
    ensures c < |Mean(o)| && c < |Std(o)| && Std(o)[c] != 0.0
    ensures Normalize(value, Mean(o)[c], Std(o)[c]) == value
  {
  }

  /** The channel order is reversed only for the scheme 'BGR'; an absent
      scheme defaults to 'RGB'. */
  predicate IsBgr(o: InputOptions)
  {
    o.channelScheme == Some("BGR")
  }

  /** Only the layout 'nchw' writes channel-major; every other value, an
      absent one included, takes the interleaved branch. */
  predicate IsChannelMajor(o: InputOptions)
  {
    o.inputLayout == Some("nchw")
  }

  /** Length of the tensor: the product of inputDimensions after the batch. */
  function TensorLength(o: InputOptions): (n: nat)
    requires |o.inputDimensions| == 4
    ensures n == Dimensions(o).channels * Dimensions(o).height * Dimensions(o).width
  {
    var dims := o.inputDimensions;
    dims[1] * dims[2] * dims[3]
  }

  /** The options under which the copy reads only defined values: four
      dimensions, at most four channels, a mean and a non-zero std for every
      channel, and the canvas data getImageData returns for width x height. */
  predicate WellFormed(pixels: seq<Byte>, o: InputOptions)
  {
    && |o.inputDimensions| == 4
    && Dimensions(o).channels <= ImageChannels
    && |pixels| == Dimensions(o).width * Dimensions(o).height * ImageChannels
    && |Mean(o)| >= Dimensions(o).channels
    && |Std(o)| >= Dimensions(o).channels
    && forall c :: 0 <= c < Dimensions(o).channels ==> Std(o)[c] != 0.0
  }

  predicate InRange(o: InputOptions, c: nat, h: nat, w: nat)
    requires |o.inputDimensions| == 4
  {
    c < Dimensions(o).channels && h < Dimensions(o).height && w < Dimensions(o).width
  }

  /** Which RGBA byte of a pixel tensor channel c takes: c itself, or
      channels - c - 1 under BGR. */
  function SourceChannel(c: nat, channels: nat, bgr: bool): (k: nat)
    requires c < channels
    ensures k < channels
    ensures bgr ==> k + c == channels - 1
    ensures !bgr ==> k == c
  {
    if bgr then channels - c - 1 else c
  }

  /** The pixel data after the optional division by 255 (exact, no rounding). */
  function PixelValues(pixels: seq<Byte>, norm: bool): (v: seq<real>)
    ensures |v| == |pixels|
    ensures forall i :: 0 <= i < |v| ==>
      0.0 <= v[i] && (if norm then v[i] == pixels[i] as real / 255.0 && v[i] <= 1.0 else v[i] == pixels[i] as real)
  {
    seq(|pixels|, i requires 0 <= i < |pixels| => if norm then pixels[i] as real / 255.0 else pixels[i] as real)
  }

  /** (value - mean) / std, for a non-zero std. */
  function Normalize(value: real, mean: real, std: real): (r: real)
    requires std != 0.0
    ensures r * std + mean == value
  {
    (value - mean) / std
  }

  /** The offset the loop writes (c, h, w) to. */
  function WriteOffset(o: InputOptions, c: nat, h: nat, w: nat): (r: nat)
    requires |o.inputDimensions| == 4
    requires InRange(o, c, h, w)
    ensures r < TensorLength(o)
  {
    var d := Dimensions(o);
    if IsChannelMajor(o) then
      LinearBound(c, h, w, d.channels, d.height, d.width);
      ChannelMajorOffset(c, h, w, d.height, d.width)
    else
      LinearBound(h, w, c, d.height, d.width, d.channels);
      InterleavedOffset(c, h, w, d.width, d.channels)
  }

  /** The coordinate an offset stands for: the inverse of WriteOffset. */
  function Coordinates(o: InputOptions, k: nat): (p: Coord)
    requires |o.inputDimensions| == 4
    requires k < TensorLength(o)
    ensures InRange(o, p.c, p.h, p.w)
    ensures WriteOffset(o, p.c, p.h, p.w) == k
  {
    var d := Dimensions(o);
    if IsChannelMajor(o) then
      var t := Split(k, d.channels, d.height, d.width);
      Coord(t.i, t.j, t.k)
    else
      assert d.channels * d.height * d.width == d.height * (d.width * d.channels);
      var t := Split(k, d.height, d.width, d.channels);
      Coord(t.k, t.i, t.j)
  }

  /** The value the loop computes for (c, h, w): (value - mean[c]) / std[c],
      where value is the RGBA byte SourceChannel picks. */
  function Sample(pixels: seq<Byte>, o: InputOptions, c: nat, h: nat, w: nat): real
    requires WellFormed(pixels, o)
    requires InRange(o, c, h, w)
  {
    var d := Dimensions(o);
    var k := SourceChannel(c, d.channels, IsBgr(o));
    PixelIndexInBounds(h, w, k, d.height, d.width);
    Normalize(PixelValues(pixels, o.norm)[PixelIndex(h, w, k, d.width)], Mean(o)[c], Std(o)[c])
  }

  /** The tensor getInputTensor returns, slot by slot: each slot holds the
      sample of the coordinate it stands for. */
  function ReferenceTensor(pixels: seq<Byte>, o: InputOptions): (t: seq<real>)
    requires WellFormed(pixels, o)
    ensures |t| == TensorLength(o)
  {
    seq(TensorLength(o), k requires 0 <= k < TensorLength(o) =>
      var p := Coordinates(o, k);
      Sample(pixels, o, p.c, p.h, p.w))
  }

  /** (c', h', w') comes before (c, h, w) in the loop order c, then h, then w. */
  predicate Visited(c': nat, h': nat, w': nat, c: nat, h: nat, w: nat)
  {
    c' < c || (c' == c && (h' < h || (h' == h && w' < w)))
  }

  /** Every coordinate the loop has passed holds its sample in t. */
  ghost predicate WrittenUpTo(t: seq<real>, pixels: seq<Byte>, o: InputOptions, c: nat, h: nat, w: nat)
    requires WellFormed(pixels, o) && |t| == TensorLength(o)
  {
    forall c', h', w' :: InRange(o, c', h', w') && Visited(c', h', w', c, h, w) ==>
      t[WriteOffset(o, c', h', w')] == Sample(pixels, o, c', h', w')
  }

  /** One iteration of the innermost loop: writing the sample of (c, h, w)
      keeps every earlier slot, since no earlier coordinate shares its offset. */
  lemma WriteStep(t: seq<real>, pixels: seq<Byte>, o: InputOptions, c: nat, h: nat, w: nat)
    requires WellFormed(pixels, o) && |t| == TensorLength(o)
    requires InRange(o, c, h, w)
    requires WrittenUpTo(t, pixels, o, c, h, w)
    ensures WrittenUpTo(t[WriteOffset(o, c, h, w) := Sample(pixels, o, c, h, w)], pixels, o, c, h, w + 1)
  {
    var offset := WriteOffset(o, c, h, w);
    var t' := t[offset := Sample(pixels, o, c, h, w)];
    forall c', h', w' | InRange(o, c', h', w') && Visited(c', h', w', c, h, w + 1)
      ensures t'[WriteOffset(o, c', h', w')] == Sample(pixels, o, c', h', w')
    {
      if Visited(c', h', w', c, h, w) {
        if WriteOffset(o, c', h', w') == offset {
          WriteOffsetInjective(o, c', h', w', c, h, w);
          assert false;
        }
      }
    }
  }

  /** When the h loop ends, the next w loop starts from a finished row. */
  lemma RowDone(t: seq<real>, pixels: seq<Byte>, o: InputOptions, c: nat, h: nat)
    requires WellFormed(pixels, o) && |t| == TensorLength(o)
    requires WrittenUpTo(t, pixels, o, c, h, Dimensions(o).width)
    ensures WrittenUpTo(t, pixels, o, c, h + 1, 0)
  {
  }

  /** When the w loops of channel c have covered every row, channel c is done. */
  lemma ChannelDone(t: seq<real>, pixels: seq<Byte>, o: InputOptions, c: nat)
    requires WellFormed(pixels, o) && |t| == TensorLength(o)
    requires WrittenUpTo(t, pixels, o, c, Dimensions(o).height, 0)
    ensures WrittenUpTo(t, pixels, o, c + 1, 0, 0)
  {
  }

  /** Once every channel is done, t is the whole input tensor. */
  lemma AllDone(t: seq<real>, pixels: seq<Byte>, o: InputOptions)
    requires WellFormed(pixels, o) && |t| == TensorLength(o)
    requires WrittenUpTo(t, pixels, o, Dimensions(o).channels, 0, 0)
    ensures t == ReferenceTensor(pixels, o)
  {
  }

  /** The copy loop of getInputTensor: a fresh zeroed tensor of
      inputDimensions[1]*inputDimensions[2]*inputDimensions[3] slots, filled
      by a loop over c, h and w. */
  method GetInputTensor(pixels: seq<Byte>, o: InputOptions) returns (tensor: array<real>)
    requires WellFormed(pixels, o)
    ensures fresh(tensor)
    ensures tensor[..] == ReferenceTensor(pixels, o)
  {
    var dims := o.inputDimensions;
    tensor := new real[dims[1] * dims[2] * dims[3]](_ => 0.0);
    var d := Dimensions(o);
    var channels, height, width := d.channels, d.height, d.width;
    var mean, std := Mean(o), Std(o);
    var values := PixelValues(pixels, o.norm);
    var bgr := IsBgr(o);

    var c := 0;
    while c < channels
      invariant 0 <= c <= channels
      invariant WrittenUpTo(tensor[..], pixels, o, c, 0, 0)
    {
      var h := 0;
      while h < height
        invariant 0 <= h <= height
        invariant WrittenUpTo(tensor[..], pixels, o, c, h, 0)
      {
        var w := 0;
        while w < width
          invariant 0 <= w <= width
          invariant WrittenUpTo(tensor[..], pixels, o, c, h, w)
        {
          var k := SourceChannel(c, channels, bgr);
          PixelIndexInBounds(h, w, k, height, width);
          var value := values[PixelIndex(h, w, k, width)];
          var offset := WriteOffset(o, c, h, w);
          WriteStep(tensor[..], pixels, o, c, h, w);
          tensor[offset] := Normalize(value, mean[c], std[c]);
          w := w + 1;
        }
        RowDone(tensor[..], pixels, o, c, h);
        h := h + 1;
      }
      ChannelDone(tensor[..], pixels, o, c);
      c := c + 1;
    }
    AllDone(tensor[..], pixels, o);
  }

  // ---------------------------------------------------------------------
  // Properties of the copy.

  /** Coordinates undoes WriteOffset, so the write offsets of distinct
      coordinates never collide. */
  lemma CoordinatesOfWriteOffset(o: InputOptions, c: nat, h: nat, w: nat)
    requires |o.inputDimensions| == 4
    requires InRange(o, c, h, w)
    ensures Coordinates(o, WriteOffset(o, c, h, w)) == Coord(c, h, w)
  {
    var d := Dimensions(o);
    var p := Coordinates(o, WriteOffset(o, c, h, w));
    if IsChannelMajor(o) {
      LinearInjective(p.c, p.h, p.w, c, h, w, d.height, d.width);
    } else {
      LinearInjective(p.h, p.w, p.c, h, w, c, d.width, d.channels);
    }
  }

  /** Distinct coordinates are written to distinct slots. */
  lemma WriteOffsetInjective(o: InputOptions, c1: nat, h1: nat, w1: nat, c2: nat, h2: nat, w2: nat)
    requires |o.inputDimensions| == 4
    requires InRange(o, c1, h1, w1) && InRange(o, c2, h2, w2)
    requires WriteOffset(o, c1, h1, w1) == WriteOffset(o, c2, h2, w2)
    ensures c1 == c2 && h1 == h2 && w1 == w2
  {
    CoordinatesOfWriteOffset(o, c1, h1, w1);
    CoordinatesOfWriteOffset(o, c2, h2, w2);
  }

  /** Every slot of the tensor is the write offset of some coordinate. */
  lemma WriteOffsetCovers(o: InputOptions, k: nat)
    requires |o.inputDimensions| == 4
    requires k < TensorLength(o)
    ensures exists c: nat, h: nat, w: nat :: InRange(o, c, h, w) && WriteOffset(o, c, h, w) == k
  {
    var p := Coordinates(o, k);
    assert InRange(o, p.c, p.h, p.w) && WriteOffset(o, p.c, p.h, p.w) == k;
  }

  /** What the tensor holds at the offset of each coordinate. */
  lemma InputTensorAt(pixels: seq<Byte>, o: InputOptions, c: nat, h: nat, w: nat)
    requires WellFormed(pixels, o)
    requires InRange(o, c, h, w)
    ensures ReferenceTensor(pixels, o)[WriteOffset(o, c, h, w)] == Sample(pixels, o, c, h, w)
  {
    CoordinatesOfWriteOffset(o, c, h, w);
  }

  /** Each byte the loop reads lies inside the width*height*4 canvas data:
      the picked channel is below channels, which is at most 4. */
  lemma SourceReadInBounds(pixels: seq<Byte>, o: InputOptions, c: nat, h: nat, w: nat)
    requires WellFormed(pixels, o)
    requires InRange(o, c, h, w)
    ensures PixelIndex(h, w, SourceChannel(c, Dimensions(o).channels, IsBgr(o)), Dimensions(o).width) < |pixels|
  {
    var d := Dimensions(o);
    PixelIndexInBounds(h, w, SourceChannel(c, d.channels, IsBgr(o)), d.height, d.width);
  }

  /** The byte a sample reads, and the value computed from it. */
  lemma SampleReads(pixels: seq<Byte>, o: InputOptions, c: nat, h: nat, w: nat)
    requires WellFormed(pixels, o)
    requires InRange(o, c, h, w)
    ensures var d := Dimensions(o);
      var i := PixelIndex(h, w, SourceChannel(c, d.channels, IsBgr(o)), d.width);
      && i < |pixels|
      && Sample(pixels, o, c, h, w) == Normalize(PixelValues(pixels, o.norm)[i], Mean(o)[c], Std(o)[c])
  {
    SourceReadInBounds(pixels, o, c, h, w);
  }

  /** SampleReads for a known source channel k. */
  lemma SampleReadsChannel(pixels: seq<Byte>, o: InputOptions, c: nat, h: nat, w: nat, k: nat)
    requires WellFormed(pixels, o)
    requires InRange(o, c, h, w)
    requires k == SourceChannel(c, Dimensions(o).channels, IsBgr(o))
    ensures PixelIndex(h, w, k, Dimensions(o).width) < |pixels|
    ensures Sample(pixels, o, c, h, w)
         == Normalize(PixelValues(pixels, o.norm)[PixelIndex(h, w, k, Dimensions(o).width)], Mean(o)[c], Std(o)[c])
  {
    SampleReads(pixels, o, c, h, w);
  }

  /** The sample depends on the options only through the dimensions, the
      channel order, the normalisation flag, mean and std. */
  lemma SampleCongruent(pixels: seq<Byte>, o1: InputOptions, o2: InputOptions, c: nat, h: nat, w: nat)
    requires WellFormed(pixels, o1) && |o2.inputDimensions| == 4
    requires Dimensions(o1) == Dimensions(o2) && IsBgr(o1) == IsBgr(o2) && o1.norm == o2.norm
    requires Mean(o1) == Mean(o2) && Std(o1) == Std(o2)
    requires InRange(o1, c, h, w)
    ensures WellFormed(pixels, o2) && InRange(o2, c, h, w)
    ensures Sample(pixels, o1, c, h, w) == Sample(pixels, o2, c, h, w)
  {
  }

  /** With three channels, BGR takes channel 2 of the canvas for tensor
      channel 0, channel 0 for tensor channel 2, and leaves channel 1 alone.
      Mean and std stay indexed by the tensor channel, so the tensors are
      channel-swapped copies of each other when channels 0 and 2 share their
      mean and std. */
  lemma BgrSwapsRedAndBlue(pixels: seq<Byte>, bgr: InputOptions, h: nat, w: nat)
    requires WellFormed(pixels, bgr) && IsBgr(bgr)
    requires Dimensions(bgr).channels == 3
    requires Mean(bgr)[0] == Mean(bgr)[2] && Std(bgr)[0] == Std(bgr)[2]
    requires h < Dimensions(bgr).height && w < Dimensions(bgr).width
    ensures var rgb := bgr.(channelScheme := Some("RGB"));
      && WellFormed(pixels, rgb)
      && ReferenceTensor(pixels, bgr)[WriteOffset(bgr, 0, h, w)] == ReferenceTensor(pixels, rgb)[WriteOffset(rgb, 2, h, w)]
      && ReferenceTensor(pixels, bgr)[WriteOffset(bgr, 1, h, w)] == ReferenceTensor(pixels, rgb)[WriteOffset(rgb, 1, h, w)]
      && ReferenceTensor(pixels, bgr)[WriteOffset(bgr, 2, h, w)] == ReferenceTensor(pixels, rgb)[WriteOffset(rgb, 0, h, w)]
  {
    var rgb := bgr.(channelScheme := Some("RGB"));
    assert Dimensions(rgb) == Dimensions(bgr);
    assert WellFormed(pixels, rgb);
    forall c: nat | c < 3
      ensures ReferenceTensor(pixels, bgr)[WriteOffset(bgr, c, h, w)] == Sample(pixels, bgr, c, h, w)
      ensures ReferenceTensor(pixels, rgb)[WriteOffset(rgb, c, h, w)] == Sample(pixels, rgb, c, h, w)
    {
      InputTensorAt(pixels, bgr, c, h, w);
      InputTensorAt(pixels, rgb, c, h, w);
    }
    SampleReadsChannel(pixels, bgr, 0, h, w, 2);
    SampleReadsChannel(pixels, bgr, 1, h, w, 1);
    SampleReadsChannel(pixels, bgr, 2, h, w, 0);
    SampleReadsChannel(pixels, rgb, 0, h, w, 0);
    SampleReadsChannel(pixels, rgb, 1, h, w, 1);
    SampleReadsChannel(pixels, rgb, 2, h, w, 2);
  }

  /** With four channels, BGR reads the alpha byte into tensor channel 0. */
  lemma BgrFourChannelsReadsAlpha(pixels: seq<Byte>, o: InputOptions, h: nat, w: nat)
    requires WellFormed(pixels, o) && IsBgr(o)
    requires Dimensions(o).channels == 4
    requires h < Dimensions(o).height && w < Dimensions(o).width
    ensures PixelIndex(h, w, 3, Dimensions(o).width) < |pixels|
    ensures ReferenceTensor(pixels, o)[WriteOffset(o, 0, h, w)]
         == (PixelValues(pixels, o.norm)[PixelIndex(h, w, 3, Dimensions(o).width)] - Mean(o)[0]) / Std(o)[0]
  {
    var d := Dimensions(o);
    PixelIndexInBounds(h, w, 3, d.height, d.width);
    InputTensorAt(pixels, o, 0, h, w);
    assert SourceChannel(0, 4, true) == 3;
  }

  /** An absent inputLayout reads the dimensions as [channels, height, width]
      yet writes in the interleaved order h*width*channels + w*channels + c. */
  lemma AbsentLayoutWritesInterleaved(pixels: seq<Byte>, o: InputOptions, c: nat, h: nat, w: nat)
    requires WellFormed(pixels, o) && o.inputLayout.None?
    requires c < o.inputDimensions[1] && h < o.inputDimensions[2] && w < o.inputDimensions[3]
    ensures InRange(o, c, h, w)
    ensures var dims := o.inputDimensions;
      InterleavedOffset(c, h, w, dims[3], dims[1]) < |ReferenceTensor(pixels, o)| &&
      ReferenceTensor(pixels, o)[InterleavedOffset(c, h, w, dims[3], dims[1])] == Sample(pixels, o, c, h, w)
  {
    InputTensorAt(pixels, o, c, h, w);
  }

  /** With RGB, 'nchw', no normalisation and the default mean and std, the
      tensor is the R, G, ... bytes of the canvas laid out channel by channel. */
  lemma ChannelMajorCopiesBytes(pixels: seq<Byte>, o: InputOptions, c: nat, h: nat, w: nat)
    requires WellFormed(pixels, o)
    requires IsChannelMajor(o) && !IsBgr(o) && !o.norm && o.mean.None? && o.std.None?
    requires InRange(o, c, h, w)
    ensures var d := Dimensions(o);
      && ChannelMajorOffset(c, h, w, d.height, d.width) < |ReferenceTensor(pixels, o)|
      && PixelIndex(h, w, c, d.width) < |pixels|
      && ReferenceTensor(pixels, o)[ChannelMajorOffset(c, h, w, d.height, d.width)] == pixels[PixelIndex(h, w, c, d.width)] as real
  {
    var d := Dimensions(o);
    PixelIndexInBounds(h, w, c, d.height, d.width);
    assert WriteOffset(o, c, h, w) == ChannelMajorOffset(c, h, w, d.height, d.width);
    InputTensorAt(pixels, o, c, h, w);
  }

  /** Switching from 'nchw' over [n, C, H, W] to 'nhwc' over [n, H, W, C] keeps
      every sample and moves it from the channel-major to the interleaved
      offset. */
  lemma LayoutSwitchMovesSamples(pixels: seq<Byte>, nchw: InputOptions, c: nat, h: nat, w: nat)
    requires WellFormed(pixels, nchw) && IsChannelMajor(nchw)
    requires InRange(nchw, c, h, w)
    ensures var dims := nchw.inputDimensions;
      var nhwc := nchw.(inputLayout := Some("nhwc"), inputDimensions := [dims[0], dims[2], dims[3], dims[1]]);
      && WellFormed(pixels, nhwc)
      && Dimensions(nhwc) == Dimensions(nchw)
      && InRange(nhwc, c, h, w)
      && WriteOffset(nchw, c, h, w) == ChannelMajorOffset(c, h, w, dims[2], dims[3])
      && WriteOffset(nhwc, c, h, w) == InterleavedOffset(c, h, w, dims[3], dims[1])
      && ReferenceTensor(pixels, nhwc)[WriteOffset(nhwc, c, h, w)]
         == ReferenceTensor(pixels, nchw)[WriteOffset(nchw, c, h, w)]
  {
    var dims := nchw.inputDimensions;
    var nhwc := nchw.(inputLayout := Some("nhwc"), inputDimensions := [dims[0], dims[2], dims[3], dims[1]]);
    var d := Dimensions(nchw);
    assert Dimensions(nhwc) == d;
    assert WriteOffset(nchw, c, h, w) == ChannelMajorOffset(c, h, w, d.height, d.width);
    assert WriteOffset(nhwc, c, h, w) == InterleavedOffset(c, h, w, d.width, d.channels);
    SampleCongruent(pixels, nchw, nhwc, c, h, w);
    InputTensorAt(pixels, nchw, c, h, w);
    InputTensorAt(pixels, nhwc, c, h, w);
  }
}
