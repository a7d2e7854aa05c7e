/** buildConstantByNpy: from a parsed .npy array to a typed array for
    builder.constant.

    Fetching the file, the .npy header parser, the DataView byte decoding
    and builder.constant lie outside this model.  What is modelled is the
    closed table of dtype tags, the rejection of any other tag, and the loop
    that fills element i of a typed array of sizeOfShape(shape) elements from
    byte offset i * BYTES_PER_ELEMENT, stopping with a RangeError at the
    first read past the end of the buffer.  The DataView read is the parameter
    `read`, given the getter name, the byte offset and the byte order.
 */
module Npy {
  import opened Wrappers
  import TensorLayout

  /** The typed-array constructors the table uses. */
  datatype TypedArrayKind =
    | Uint8Array | Int8Array | Uint16Array | Int16Array | Uint32Array | Int32Array
    | Float32Array | Float64Array | BigInt64Array | BigUint64Array

  /** The width in bytes of one element of each array type. */
  function BytesPerElement(kind: TypedArrayKind): (n: nat)
    ensures 1 <= n <= 8
  {
    match kind
    case Uint8Array | Int8Array => 1
    case Uint16Array | Int16Array => 2
    case Uint32Array | Int32Array | Float32Array => 4
    case Float64Array | BigInt64Array | BigUint64Array => 8
  }

  /** One entry of dataTypeMap: the WebNN operand type and the array type. */
  datatype DataTypeInfo = DataTypeInfo(typeName: string, arrayKind: TypedArrayKind)

  /** dataTypeMap: the eleven accepted .npy dtype tags. */
  const DataTypeMap: map<string, DataTypeInfo> := map[
    "f2" := DataTypeInfo("float16", Uint16Array),
    "f4" := DataTypeInfo("float32", Float32Array),
    "f8" := DataTypeInfo("float64", Float64Array),
    "i1" := DataTypeInfo("int8", Int8Array),
    "i2" := DataTypeInfo("int16", Int16Array),
    "i4" := DataTypeInfo("int32", Int32Array),
    "i8" := DataTypeInfo("int64", BigInt64Array),
    "u1" := DataTypeInfo("uint8", Uint8Array),
    "u2" := DataTypeInfo("uint16", Uint16Array),
    "u4" := DataTypeInfo("uint32", Uint32Array),
    "u8" := DataTypeInfo("uint64", BigUint64Array)
  ]

  /** The fields of the parsed array the function uses; bufferLength is the
      byte length of the buffer the DataView is built over. */
  datatype NpArray = NpArray(dataType: string, shape: seq<nat>, byteOrder: string, bufferLength: nat)

  /** The errors thrown: a tag outside the table, and the RangeError of a
      DataView read of element index that runs past the end of the buffer. */
  datatype NpyError = UnsupportedDataType(dataType: string) | ReadOutOfRange(index: nat)

  /** A DataView read of width bytes at element i stays inside the buffer. */
  predicate ReadFits(npArray: NpArray, i: nat, width: nat)
  {
    i * width + width <= npArray.bufferLength
  }

  /** The arguments of builder.constant: the operand type and dimensions and
      the typed array with its elements. */
  datatype Constant<V> = Constant(typeName: string, dimensions: seq<nat>, arrayKind: TypedArrayKind, data: seq<V>)

  /** sizeOfShape: the number of elements of an array of the given shape. */
  function SizeOfShape(shape: seq<nat>): (n: nat)
    ensures n == 0 <==> 0 in shape
  {
    if shape == [] then 1 else shape[0] * SizeOfShape(shape[1..])
  }

  /** The names of the DataView getters. */
  const DataViewGetters: set<string> := {
    "getInt8", "getUint8", "getInt16", "getUint16", "getInt32", "getUint32",
    "getFloat16", "getFloat32", "getFloat64", "getBigInt64", "getBigUint64"
  }

  function ToUpperCase(ch: char): char
  {
    if 'a' <= ch <= 'z' then (ch as int - 32) as char else ch
  }

  /** The getter name as the source builds it: get, then the operand type
      with its first letter in upper case. */
  function AsWrittenGetterName(typeName: string): string
    requires |typeName| > 0
  {
    "get" + [ToUpperCase(typeName[0])] + typeName[1..]
  }

  /** The getter that reads one element of the operand type: the 64-bit
      integer getters carry the prefix Big. */
  function GetterName(typeName: string): string
    requires |typeName| > 0
  {
    if typeName == "int64" then "getBigInt64"
    else if typeName == "uint64" then "getBigUint64"
    else AsWrittenGetterName(typeName)
  }

  /** The name of the getter the source calls on a DataView that has no such
      method, when the loop runs at least once: calling it throws a
      TypeError before the first element is stored. */
  function AsWrittenFillError(npArray: NpArray): (e: Option<string>)
    requires npArray.dataType in DataTypeMap
    ensures e.Some? ==> e.value !in DataViewGetters && 0 !in npArray.shape
    ensures e.Some? ==> e.value == AsWrittenGetterName(DataTypeMap[npArray.dataType].typeName)
  {
    var name := AsWrittenGetterName(DataTypeMap[npArray.dataType].typeName);
    if name !in DataViewGetters && SizeOfShape(npArray.shape) > 0 then Some(name) else None
  }

  /** buildConstantByNpy after the fetch and the .npy parse: look the tag up,
      then fill a typed array of sizeOfShape(shape) elements, element i read
      at byte offset i * BYTES_PER_ELEMENT in the header's byte order.
      The loop stops with a RangeError at the first element whose bytes run
      past the end of the buffer.  The getter is the corrected GetterName;
      the source's own name makes the loop throw where AsWrittenFillError
      is Some. */
  method BuildConstantByNpy<V(0)>(npArray: NpArray, read: (string, nat, bool) -> V)
    returns (r: Result<Constant<V>, NpyError>)
    ensures npArray.dataType !in DataTypeMap ==> r == Failure(UnsupportedDataType(npArray.dataType))
    ensures npArray.dataType in DataTypeMap ==>
      var width := BytesPerElement(DataTypeMap[npArray.dataType].arrayKind);
      (r.Failure? <==> SizeOfShape(npArray.shape) * width > npArray.bufferLength)
    ensures r.Failure? && npArray.dataType in DataTypeMap ==>
      var width := BytesPerElement(DataTypeMap[npArray.dataType].arrayKind);
      && r.error.ReadOutOfRange?
      && r.error.index < SizeOfShape(npArray.shape)
      && !ReadFits(npArray, r.error.index, width)
      && forall k :: 0 <= k < r.error.index ==> ReadFits(npArray, k, width)
    ensures r.Success? ==>
      var info := DataTypeMap[npArray.dataType];
      && r.value.typeName == info.typeName
      && r.value.dimensions == npArray.shape
      && r.value.arrayKind == info.arrayKind
      && |r.value.data| == SizeOfShape(npArray.shape)
      && forall i :: 0 <= i < |r.value.data| ==>
           r.value.data[i] == read(GetterName(info.typeName), i * BytesPerElement(info.arrayKind), npArray.byteOrder == "<")
  {
    if npArray.dataType !in DataTypeMap {
      return Failure(UnsupportedDataType(npArray.dataType));
    }
    var dimensions := npArray.shape;
    var info := DataTypeMap[npArray.dataType];
    var size := SizeOfShape(dimensions);
    var typedArray := new V[size];
    var getter := GetterName(info.typeName);
    var width := BytesPerElement(info.arrayKind);
    var littleEndian := npArray.byteOrder == "<";
    for i := 0 to size
      invariant forall k :: 0 <= k < i ==> ReadFits(npArray, k, width)
      invariant forall k :: 0 <= k < i ==> typedArray[k] == read(getter, k * width, littleEndian)
    {
      if i * width + width > npArray.bufferLength {
        TensorLayout.MulLeftMonotone(i + 1, size, width);
        return Failure(ReadOutOfRange(i));
      }
      typedArray[i] := read(getter, i * width, littleEndian);
    }
    if size > 0 {
      assert ReadFits(npArray, size - 1, width);
      assert (size - 1) * width + width == size * width;
    }
    return Success(Constant(info.typeName, dimensions, info.arrayKind, typedArray[..]));
  }

  // ---------------------------------------------------------------------
  // Properties of the table and of the fill loop.

  /** The accepted tags are exactly f2, f4, f8, i1, i2, i4, i8, u1, u2, u4, u8. */
  lemma AcceptedTags(tag: string)
    ensures tag in DataTypeMap <==>
      tag in {"f2", "f4", "f8", "i1", "i2", "i4", "i8", "u1", "u2", "u4", "u8"}
  {
  }

  /** The digit of every tag is the element width of the array it selects. */
  lemma ElementWidthMatchesTag(tag: string)
    requires tag in DataTypeMap
    ensures |tag| == 2
    ensures BytesPerElement(DataTypeMap[tag].arrayKind) == tag[1] as int - '0' as int
  {
  }

  /** The byte windows the loop reads for an accepted array,
      [i*width, (i+1)*width) for i < sizeOfShape(shape) with width the
      BYTES_PER_ELEMENT of its array type, lie inside the first
      size*width bytes and do not overlap. */
  lemma {:induction false} ReadWindowsTile(npArray: NpArray, i: nat, j: nat)
    requires npArray.dataType in DataTypeMap
    requires i < SizeOfShape(npArray.shape) && j < SizeOfShape(npArray.shape) && i != j
    ensures var width := BytesPerElement(DataTypeMap[npArray.dataType].arrayKind);
      i * width + width <= j * width || j * width + width <= i * width
    ensures var width := BytesPerElement(DataTypeMap[npArray.dataType].arrayKind);
      i * width + width <= SizeOfShape(npArray.shape) * width
  {
    var size := SizeOfShape(npArray.shape);
    var width := BytesPerElement(DataTypeMap[npArray.dataType].arrayKind);
    if i < j {
      TensorLayout.MulLeftMonotone(i + 1, j, width);
    } else {
      TensorLayout.MulLeftMonotone(j + 1, i, width);
    }
    TensorLayout.MulLeftMonotone(i + 1, size, width);
  }

  /** The element at which the fill loop stops with a RangeError is the
      buffer length divided by the element width. */
  lemma {:induction false} FirstUnfitIndex(npArray: NpArray, width: nat, i: nat)
    requires width > 0
    requires !ReadFits(npArray, i, width)
    requires forall k :: 0 <= k < i ==> ReadFits(npArray, k, width)
    ensures i == npArray.bufferLength / width
  {
    var n := npArray.bufferLength;
    var q := n / width;
    assert n == q * width + n % width && n % width < width;
    TensorLayout.QuotientBelow(q, n % width, width, i + 1);
    if i > 0 {
      assert ReadFits(npArray, i - 1, width);
      TensorLayout.QuotientBelow(i, 0, width, q + 1);
    }
  }

  /** The getter name the source builds for each operand type of the table. */
  lemma AsWrittenGetterNames()
    ensures AsWrittenGetterName("float16") == "getFloat16"
    ensures AsWrittenGetterName("float32") == "getFloat32"
    ensures AsWrittenGetterName("float64") == "getFloat64"
    ensures AsWrittenGetterName("int8") == "getInt8"
    ensures AsWrittenGetterName("int16") == "getInt16"
    ensures AsWrittenGetterName("int32") == "getInt32"
    ensures AsWrittenGetterName("int64") == "getInt64"
    ensures AsWrittenGetterName("uint8") == "getUint8"
    ensures AsWrittenGetterName("uint16") == "getUint16"
    ensures AsWrittenGetterName("uint32") == "getUint32"
    ensures AsWrittenGetterName("uint64") == "getUint64"
  {
  }

  /** The getters built by the source exist except for the 64-bit integer
      types, whose getters are named getBigInt64 and getBigUint64. */
  lemma AsWrittenGetterMissing(tag: string)
    requires tag in DataTypeMap
    ensures AsWrittenGetterName(DataTypeMap[tag].typeName) !in DataViewGetters <==> tag == "i8" || tag == "u8"
  {
    AsWrittenGetterNames();
  }

  /** The as-written loop throws exactly for a non-empty int64 or uint64 array. */
  lemma AsWrittenFillFails(npArray: NpArray)
    requires npArray.dataType in DataTypeMap
    ensures AsWrittenFillError(npArray).Some? <==>
      (npArray.dataType == "i8" || npArray.dataType == "u8") && SizeOfShape(npArray.shape) > 0
  {
    AsWrittenGetterMissing(npArray.dataType);
  }

  /** The corrected getter exists for every accepted tag and agrees with the
      as-written name wherever that one exists. */
  lemma GetterNameDefined(tag: string)
    requires tag in DataTypeMap
    ensures GetterName(DataTypeMap[tag].typeName) in DataViewGetters
    ensures tag != "i8" && tag != "u8" ==>
      GetterName(DataTypeMap[tag].typeName) == AsWrittenGetterName(DataTypeMap[tag].typeName)
  {
    AsWrittenGetterNames();
  }
}
