# WebNN model-test utilities: tensor copy, top-3 ranking and .npy constants

This project models the three parts of `webnn/model-tests/resources/utils.js`
that are pure index and ordering logic, and proves properties of them in
Dafny.

- **getInputTensor** (module `InputTensor`, index arithmetic in
  `TensorLayout`). The input is the RGBA canvas data that `getImageData`
  returns: `width*height*4` bytes in row-major order. The model covers:
  - how the channel, height and width counts are read from
    `inputDimensions` for each `inputLayout`;
  - which byte each tensor slot takes under the channel schemes `RGB` and
    `BGR`;
  - the optional division by 255 and the per-channel `(value - mean[c]) / std[c]`;
  - the write offset: channel-major for `'nchw'`, interleaved for every
    other value of the layout.

  `GetInputTensor` is the triple loop over a fresh `array<real>`. It is
  proved equal to the function `ReferenceTensor`, which gives each slot the
  sample of the coordinate that slot stands for. `TensorLayout` proves once
  that the offset shape `i*(J*K) + j*K + k` is in bounds and bijective, with
  the inverse `Split`. It then shows that both write offsets and the pixel
  index are instances of that shape.
- **getTopClasses** (module `TopClasses`). The method does what the source
  does:
  - pairs every score with its index;
  - sorts the pairs in place by a stable sort that compares scores only (an
    insertion sort, `SortByScore`);
  - reverses them in place (`Reverse`);
  - reads the first three.

  The independent reference `Ranking` is a functional insertion sort into
  the order "higher score first, and among equal scores the later index
  first". `RankedUnique` shows that a sorted sequence is determined by its
  multiset, which ties the in-place result to `Ranking`.
- **buildConstantByNpy** (module `Npy`). The model covers:
  - the closed table of eleven dtype tags;
  - the error for any other tag;
  - the loop that fills `sizeOfShape(shape)` elements, element `i` read at
    byte offset `i * BYTES_PER_ELEMENT` in the byte order of the header;
  - the RangeError of a read that runs past the end of the buffer, which
    stops the loop at the first element that does not fit.

  The DataView read is the parameter `read`. It takes the getter name, the
  byte offset and the little-endian flag.

Scores, pixel values, mean and std are exact reals. Absent optional
properties are `None`, except `norm`, which is a `bool` whose absence is
`false`. An undefined `labels[index]` is `None`. A thrown error is a
`Failure`, with two exceptions:
- The 64-bit getter error of `buildConstantByNpy` (see "## Findings") is
  stated by `AsWrittenFillError`, and `BuildConstantByNpy` models the
  corrected getter.
- `getImageData` throws on a zero width or height. The model has no canvas
  and gives an empty tensor for those sizes (see "## Left out").

Two behaviours of the code are kept as written:
- When `inputLayout` is absent, the code reads the dimensions as
  channels, height, width, but writes in the interleaved order
  `h*width*channels + w*channels + c`. It does not write channel-major
  (`AbsentLayoutWritesInterleaved`).
- With fewer than three scores, reading `sorted[i][0]` on an undefined entry
  throws. This is modelled as `Failure(UndefinedEntry(i))`.

## Model

| member | source | states |
|---|---|---|
| TensorLayout.LinearBound | webnn/model-tests/resources/utils.js:111-126 | an offset `i*(J*K) + j*K + k` of an in-range triple lies below `I*J*K` |
| TensorLayout.LinearInjective | webnn/model-tests/resources/utils.js:111-126 | two in-range triples with the same offset are the same triple |
| TensorLayout.Split | webnn/model-tests/resources/utils.js:111-126 | every offset below `I*J*K` is the offset of an in-range triple, which is computed |
| TensorLayout.SplitLinear | webnn/model-tests/resources/utils.js:111-126 | `Split` inverts the offset on in-range triples |
| TensorLayout.ChannelMajorOffset | webnn/model-tests/resources/utils.js:121-123 | the 'nchw' offset `c*width*height + h*width + w` is the mixed-radix offset of (c, h, w) in a C x H x W grid |
| TensorLayout.InterleavedOffset | webnn/model-tests/resources/utils.js:124-126 | the other offset `h*width*channels + w*channels + c` is the mixed-radix offset of (h, w, c) in an H x W x C grid |
| TensorLayout.PixelIndex | webnn/model-tests/resources/utils.js:115-120 | the read index `h*width*4 + w*4 + k` is the mixed-radix offset of (h, w, k) with 4 bytes per pixel |
| TensorLayout.PixelIndexInBounds | webnn/model-tests/resources/utils.js:115-120 | for h < height, w < width and k < 4 the read index lies inside the `width*height*4` canvas bytes |
| InputTensor.Dimensions | webnn/model-tests/resources/utils.js:72-83 | 'nhwc' reads `inputDimensions[1..]` as [height, width, channels]; any other layout, absent included, reads [channels, height, width] |
| InputTensor.Mean | webnn/model-tests/resources/utils.js:73 | the mean option, or [0, 0, 0, 0] when it is absent |
| InputTensor.Std | webnn/model-tests/resources/utils.js:74 | the std option, or [1, 1, 1, 1] when it is absent |
| InputTensor.DefaultsKeepValues | webnn/model-tests/resources/utils.js:73-74 | with mean and std absent, normalizing any of the first four channels leaves the value unchanged |
| InputTensor.IsBgr | webnn/model-tests/resources/utils.js:115 | the channel order is reversed exactly for the scheme 'BGR'; an absent scheme is 'RGB' |
| InputTensor.IsChannelMajor | webnn/model-tests/resources/utils.js:121 | the channel-major branch is taken exactly for the layout 'nchw'; an absent layout takes the interleaved branch |
| InputTensor.TensorLength | webnn/model-tests/resources/utils.js:63-65 | the tensor has `inputDimensions[1]*[2]*[3]` elements, which is channels x height x width for either reading; the batch is not materialised |
| InputTensor.SourceChannel | webnn/model-tests/resources/utils.js:115-120 | the byte read is below the channel count; it is c under RGB and satisfies k + c = channels - 1 under BGR |
| InputTensor.PixelValues | webnn/model-tests/resources/utils.js:107-109 | same length as the pixel data; with norm every value is the byte divided by 255 and lies in [0, 1], without norm every value is the byte itself |
| InputTensor.Normalize | webnn/model-tests/resources/utils.js:122-126 | (value - mean) / std for a non-zero std, with the inverse: the result times std plus mean is the value |
| InputTensor.Sample | webnn/model-tests/resources/utils.js:114-126 | the value stored for (c, h, w): the byte `SourceChannel` picks from pixel (h, w), after the optional /255, normalized with mean[c] and std[c] |
| InputTensor.WriteOffset | webnn/model-tests/resources/utils.js:121-126 | every write offset of an in-range (c, h, w) lies inside the tensor |
| InputTensor.Coordinates | webnn/model-tests/resources/utils.js:121-126 | every tensor slot is the write offset of an in-range coordinate, which is computed |
| InputTensor.ReferenceTensor | webnn/model-tests/resources/utils.js:111-130 | the reference tensor has channels x height x width slots |
| InputTensor.WriteStep | webnn/model-tests/resources/utils.js:122-126 | one write keeps the samples of every coordinate the loop visited earlier, because no earlier coordinate shares its offset |
| InputTensor.AllDone | webnn/model-tests/resources/utils.js:111-130 | once every (c, h, w) has its sample in place, the array is the reference tensor |
| InputTensor.GetInputTensor | webnn/model-tests/resources/utils.js:62-132 | the triple loop returns a fresh array equal to `ReferenceTensor(pixels, options)` |
| InputTensor.CoordinatesOfWriteOffset | webnn/model-tests/resources/utils.js:121-126 | `Coordinates` inverts the write offset |
| InputTensor.WriteOffsetInjective | webnn/model-tests/resources/utils.js:111-126 | distinct coordinates are written to distinct slots, in either layout |
| InputTensor.WriteOffsetCovers | webnn/model-tests/resources/utils.js:111-126 | every slot is written by some coordinate, so the loop writes each slot exactly once |
| InputTensor.InputTensorAt | webnn/model-tests/resources/utils.js:111-130 | the slot at the write offset of (c, h, w) holds the sample of (c, h, w) |
| InputTensor.SourceReadInBounds | webnn/model-tests/resources/utils.js:115-120 | the byte each sample reads, under RGB or BGR, lies inside the canvas data when channels <= 4 |
| InputTensor.SampleCongruent | webnn/model-tests/resources/utils.js:114-127 | a sample depends only on the dimensions, the channel order, the norm flag, the mean and the std |
| InputTensor.BgrSwapsRedAndBlue | webnn/model-tests/resources/utils.js:115-120 | with 3 channels, BGR channel 0 equals RGB channel 2, channel 1 is unchanged and channel 2 equals RGB channel 0, given that channels 0 and 2 share mean and std |
| InputTensor.BgrFourChannelsReadsAlpha | webnn/model-tests/resources/utils.js:115-117 | with 4 channels, BGR puts the alpha byte, normalized or not, into tensor channel 0 |
| InputTensor.AbsentLayoutWritesInterleaved | webnn/model-tests/resources/utils.js:124-126 | with no inputLayout, the dimensions are read as C, H, W and the sample goes to the interleaved offset `h*W*C + w*C + c` |
| InputTensor.ChannelMajorCopiesBytes | webnn/model-tests/resources/utils.js:119-123 | RGB, 'nchw', no norm and the default mean and std give the canvas bytes of each channel, laid out channel by channel |
| InputTensor.LayoutSwitchMovesSamples | webnn/model-tests/resources/utils.js:121-126 | 'nchw' over [n, C, H, W] and 'nhwc' over [n, H, W, C] read the same dimensions and hold the same sample, at the channel-major and the interleaved offset respectively |
| TopClasses.Pairs | webnn/model-tests/resources/utils.js:143-144 | one pair per score, pair i holding score i and index i |
| TopClasses.Compare | webnn/model-tests/resources/utils.js:145-150 | the comparator returns -1, 0 or 1: 0 exactly for equal scores, negative exactly when the first score is smaller |
| TopClasses.PrecedesTotalOrder | webnn/model-tests/resources/utils.js:145-151 | the final order (score descending, then index descending) is reflexive, total, antisymmetric and transitive |
| TopClasses.Ranking | webnn/model-tests/resources/utils.js:145-151 | the reference ranking is a permutation of the pairs, sorted by score descending with ties by later index first |
| TopClasses.RankedUnique | webnn/model-tests/resources/utils.js:145-151 | two sorted sequences with the same multiset of pairs are equal |
| TopClasses.RankingIs | webnn/model-tests/resources/utils.js:145-151 | any sorted permutation of the pairs is the ranking |
| TopClasses.InsertLeft | webnn/model-tests/resources/utils.js:145-150 | one insertion round leaves the first k+1 pairs sorted ascending, ties in index order, and the rest unchanged |
| TopClasses.SortByScore | webnn/model-tests/resources/utils.js:145-150 | on pairs in index order, the stable sort by score yields a permutation sorted ascending by score with ties in index order |
| TopClasses.ReversedMultiset | webnn/model-tests/resources/utils.js:151 | reversal is a permutation |
| TopClasses.AscendingReversed | webnn/model-tests/resources/utils.js:151 | reversing the ascending array yields score descending with ties by later index first |
| TopClasses.Reverse | webnn/model-tests/resources/utils.js:151 | the in-place reversal leaves the array back to front |
| TopClasses.SortedPairs | webnn/model-tests/resources/utils.js:143-151 | pairing, sorting and reversing in place produce exactly `Ranking(buffer)` |
| TopClasses.TopThree | webnn/model-tests/resources/utils.js:154-162 | three classes are read |
| TopClasses.ClassOf | webnn/model-tests/resources/utils.js:155-160 | the class of a ranked pair: `labels[index]` when the index is in range, else `None`, and the pair's score |
| TopClasses.GetTopClasses | webnn/model-tests/resources/utils.js:142-165 | fewer than 3 scores fail at the first missing entry; otherwise the result is the classes of the first three pairs of `Ranking(buffer)` |
| TopClasses.RankingEntries | webnn/model-tests/resources/utils.js:143-151 | the ranking holds each (score, index) pair of the buffer exactly once, and nothing else |
| TopClasses.RankingStrict | webnn/model-tests/resources/utils.js:145-151 | an earlier pair of the ranking has a higher score, or an equal score and a later index |
| TopClasses.TopThreeCorrect | webnn/model-tests/resources/utils.js:154-162 | 3 classes carrying the labels and scores of three distinct indices; scores non-increasing; among equal scores the later index first; every score left out is below the third, or equal to it with an earlier index |
| TopClasses.TopThreeExample | webnn/model-tests/resources/utils.js:142-165 | scores 0.1, 0.7, 0.05, 0.15 over labels a, b, c, d give b (0.7), d (0.15), a (0.1) |
| TopClasses.TopThreeTieExample | webnn/model-tests/resources/utils.js:142-165 | scores 0.5, 0.5, 0.5, 0.1 give c, b, a: ties come out latest index first |
| Npy.BytesPerElement | webnn/model-tests/resources/utils.js:48 | every element width lies between 1 and 8 bytes |
| Npy.DataTypeMap | webnn/model-tests/resources/utils.js:21-33 | the table from the eleven tags to an operand type and a typed-array constructor |
| Npy.SizeOfShape | webnn/model-tests/resources/utils.js:43-46 | the element count is the product of the dimensions, and it is zero exactly when some dimension is zero |
| Npy.BuildConstantByNpy | webnn/model-tests/resources/utils.js:20-51 | the corrected definition, calling getBigInt64 and getBigUint64 for int64 and uint64: fails with the offending tag exactly when the tag is not in the table; otherwise returns the table's type and array kind with the shape as dimensions, `sizeOfShape(shape)` elements, element i read at byte offset i*BYTES_PER_ELEMENT with the getter of the type and the header's byte order; for an accepted tag it fails exactly when sizeOfShape(shape)*BYTES_PER_ELEMENT exceeds the buffer length, with a RangeError naming the first element whose bytes do not fit |
| Npy.AcceptedTags | webnn/model-tests/resources/utils.js:21-33 | the accepted tags are exactly f2, f4, f8, i1, i2, i4, i8, u1, u2, u4, u8 |
| Npy.ElementWidthMatchesTag | webnn/model-tests/resources/utils.js:21-33 | the digit of every tag is the element width of the array type it selects |
| Npy.AsWrittenGetterName | webnn/model-tests/resources/utils.js:47 | the name the source builds: `get`, then the operand type with its first letter in upper case |
| Npy.GetterName | webnn/model-tests/resources/utils.js:47 | the corrected name: `getBigInt64` and `getBigUint64` for int64 and uint64, the built name otherwise |
| Npy.AsWrittenFillError | webnn/model-tests/resources/utils.js:46-49 | the getter the as-written loop calls when it is not a DataView method and the array has an element (no dimension is zero); `None` when the loop completes |
| Npy.ReadWindowsTile | webnn/model-tests/resources/utils.js:46-48 | for an accepted array, the byte windows of two distinct elements i, j < sizeOfShape(shape), each BYTES_PER_ELEMENT wide, do not overlap, and each lies inside the first sizeOfShape(shape)*BYTES_PER_ELEMENT bytes |
| Npy.FirstUnfitIndex | webnn/model-tests/resources/utils.js:46-48 | the element at which the fill loop's RangeError occurs is the buffer length divided by the element width |
| Npy.AsWrittenGetterNames | webnn/model-tests/resources/utils.js:47 | the getter name built for each of the eleven types, getInt64 and getUint64 included |
| Npy.AsWrittenGetterMissing | webnn/model-tests/resources/utils.js:47-48 | the built getter is not a DataView method exactly for the tags i8 and u8 |
| Npy.AsWrittenFillFails | webnn/model-tests/resources/utils.js:46-49 | the loop as written calls a missing getter exactly for a non-empty int64 or uint64 array |
| Npy.GetterNameDefined | webnn/model-tests/resources/utils.js:47-48 | the corrected getter exists for every accepted tag and equals the built name for the nine other tags |

## Left out

- `getBufferFromUrl`, the `fetch` calls of `buildConstantByNpy` and `fetchLabels` (utils.js:7-18, 34-35, 134-139): these are network and file I/O.
- `createInputElement` (utils.js:53-60): it creates a DOM element and resolves a promise on an event.
- Resizing the caller's input element to its intrinsic video or image size (utils.js:67-70): an effect on a DOM element outside the tensor.
- Canvas work (utils.js:84-105): sizing the canvas, the three `drawImage` branches, the `scaledFlag` resize ratio and `getImageData`. Their result is the `pixels` parameter, `width*height*4` bytes.
- Floating point: Float32Array storage, the division by 255, the mean/std division and any NaN or Infinity are modelled as exact reals. `WellFormed` requires a non-zero std for every channel, a mean and std of at least channels entries and four dimensions.
- `WellFormed` requires at most four channels. With more, the channel loop (utils.js:116-119) reads bytes of the next pixel, and at the last pixel it reads past the end of the data; the undefined value gives NaN, which is not modelled.
- getImageData throws on a zero width or height. The model allows those sizes, which give an empty tensor.
- GetInputTensor: the result is stated over exact reals, not float32 values.
- GetTopClasses: a class carries the score itself, not the text `(prob * 100).toFixed(2)`. NaN scores, for which the comparator is not a total order, are not modelled.
- The .npy header parse by the external `numpy.Array` (utils.js:36) is not modelled. `NpArray` holds its tag, shape and byte-order marker; the data buffer is reached only through `read`.
- `sizeOfShape` is defined outside this file. It is modelled as the product of the shape.
- `builder.constant` (utils.js:50) is not modelled. `Constant` holds its arguments.
- BuildConstantByNpy: it is the corrected definition, which calls `getBigInt64` and `getBigUint64` for int64 and uint64. The source throws a TypeError on exactly those inputs for which `AsWrittenFillError(npArray)` is `Some` (a non-empty i8 or u8 array). The DataView decoding, endianness included, is the abstract `read`, which is total on offsets whose bytes fit; `bufferLength` stands for the byte length of `npArray.data.buffer`, and where the parsed data lies inside that buffer is decided by `numpy.Array`, which is not modelled. The store into the typed array is modelled without conversion. For `f2`, the float returned by `getFloat16` is stored into a `Uint16Array`, which truncates it. That conversion is not captured.
- `getFloat16` exists only on newer JavaScript engines. The model treats it as present.

## Findings

| source | as written | input that shows it | evidently intended | confidence | as-written member | corrected member |
|---|---|---|---|---|---|---|
| webnn/model-tests/resources/utils.js:47 | the getter name is `get` + the type with its first letter in upper case, so int64 and uint64 call `getInt64` and `getUint64`, which DataView does not have | any .npy array with dtype `i8` or `u8` and at least one element: the first iteration calls an undefined method and throws a TypeError | call `getBigInt64` and `getBigUint64`, the DataView getters for 64-bit integers; `Npy.GetterNameDefined` proves that the corrected getter exists for every accepted tag | high (not executed) | Npy.AsWrittenFillFails | Npy.BuildConstantByNpy |
