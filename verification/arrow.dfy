/** The vocabulary of the external columnar library the system builds on: the logical
    data types a column can declare and the page encodings a writer can use. Only the
    names matter here; the library's buffers and encoders are not part of this model. */
module Arrow {

  datatype TimeUnit = Second | Millisecond | Microsecond | Nanosecond

  /** Logical column types (a representative subset of the library's `DataType`). */
  datatype DataType =
    | Null
    | Boolean
    | Int8 | Int16 | Int32 | Int64
    | UInt8 | UInt16 | UInt32 | UInt64
    | Float16 | Float32 | Float64
    | Timestamp(unit: TimeUnit)
    | Date32 | Date64
    | Binary | LargeBinary | FixedSizeBinary(size: nat)
    | Utf8 | LargeUtf8

  /** Page encodings of the columnar file format. */
  datatype Encoding =
    | Plain
    | PlainDictionary
    | Rle
    | BitPacked
    | DeltaBinaryPacked
    | DeltaLengthByteArray
    | DeltaByteArray
    | RleDictionary
    | ByteStreamSplit
}
