/** The memory-cost protocol (src/mem.rs): how many bytes a builder's buffers occupy,
    composed from the validity bitmap, the value buffer and, for strings, the offsets.

    The buffer-level formulas take buffer lengths; `ColumnMem` derives those lengths from
    a column's cells the way the external library lays a builder out:
    - the validity bitmap exists once a null has been pushed, and then has one bit per cell;
    - a primitive or boolean builder has one value slot per cell, nulls included;
    - a string builder keeps the concatenated bytes of its non-null cells and one more
      offset than it has cells (the leading zero offset). */
module Mem {
  import opened Wrappers
  import opened Columns

  /** `size_of` of the element types the buffers hold. */
  const ByteSize: nat := 1
  const I32Size: nat := 4
  const I64Size: nat := 8
  const F64Size: nat := 8

  /** Width of one offset of a string builder with 32-bit offsets. */
  const OffsetSize: nat := I32Size

  /** A value vector: its length times the element size. */
  function VecUsage(len: nat, elemSize: nat): nat
  {
    len * elemSize
  }

  /** A bitmap of `bits` bits: whole bytes only, rounded down. */
  function BitmapUsage(bits: nat): (r: nat)
    ensures 8 * r <= bits < 8 * r + 8
    ensures bits < 8 ==> r == 0
  {
    bits / 8
  }

  /** An optional validity bitmap, given by its length when present. */
  function ValidityUsage(validity: Option<nat>): nat
  {
    match validity
    case None => 0
    case Some(bits) => BitmapUsage(bits)
  }

  /** A fixed-width binary builder: its value bytes only. */
  function FixedSizeBinaryUsage(validity: Option<nat>, valueBytes: nat): nat
  {
    VecUsage(valueBytes, ByteSize)
  }

  /** A variable-length string builder: validity, value bytes and offsets. */
  function Utf8Usage(validity: Option<nat>, valueBytes: nat, offsets: nat, offsetSize: nat): nat
  {
    ValidityUsage(validity) + VecUsage(valueBytes, ByteSize) + VecUsage(offsets, offsetSize)
  }

  /** A primitive builder: validity and one value slot per element. */
  function PrimitiveUsage(validity: Option<nat>, len: nat, elemSize: nat): nat
  {
    ValidityUsage(validity) + VecUsage(len, elemSize)
  }

  /** A boolean builder: validity and a bitmap of values. */
  function BooleanUsage(validity: Option<nat>, len: nat): nat
  {
    ValidityUsage(validity) + BitmapUsage(len)
  }

  /** Validity bitmaps ordered by size: an absent one below any, a shorter below a longer. */
  predicate ValidityLe(a: Option<nat>, b: Option<nat>)
  {
    a.None? || (b.Some? && a.value <= b.value)
  }

  /** A missing validity bitmap costs nothing; a present one costs its bitmap. */
  lemma ValidityUsageCases(validity: Option<nat>)
    ensures validity.None? ==> ValidityUsage(validity) == 0
    ensures validity.Some? ==> 8 * ValidityUsage(validity) <= validity.value < 8 * ValidityUsage(validity) + 8
  {
  }

  /** The fixed-width binary cost does not depend on the validity bitmap at all. */
  lemma FixedSizeBinaryIgnoresValidity(a: Option<nat>, b: Option<nat>, valueBytes: nat)
    ensures FixedSizeBinaryUsage(a, valueBytes) == FixedSizeBinaryUsage(b, valueBytes) == valueBytes
  {
  }

  lemma MulMonotone(a: nat, b: nat, k: nat)
    requires a <= b
    ensures a * k <= b * k
  {
  }

  /** Growing any buffer never lowers any of the formulas. */
  lemma UsageMonotone(va: Option<nat>, vb: Option<nat>, la: nat, lb: nat, oa: nat, ob: nat, size: nat)
    requires ValidityLe(va, vb)
    requires la <= lb && oa <= ob
    ensures VecUsage(la, size) <= VecUsage(lb, size)
    ensures BitmapUsage(la) <= BitmapUsage(lb)
    ensures ValidityUsage(va) <= ValidityUsage(vb)
    ensures FixedSizeBinaryUsage(va, la) <= FixedSizeBinaryUsage(vb, lb)
    ensures Utf8Usage(va, la, oa, size) <= Utf8Usage(vb, lb, ob, size)
    ensures PrimitiveUsage(va, la, size) <= PrimitiveUsage(vb, lb, size)
    ensures BooleanUsage(va, la) <= BooleanUsage(vb, lb)
  {
    MulMonotone(la, lb, size);
    MulMonotone(la, lb, ByteSize);
    MulMonotone(oa, ob, size);
  }

  /** Total length of the non-null strings: the string builder's value bytes. */
  function ValueBytes(strs: seq<Option<Utf8Bytes>>): nat
  {
    if |strs| == 0 then 0
    else ValueBytes(strs[..|strs| - 1]) + OptionLen(strs[|strs| - 1])
  }

  /** Byte length of an optional string, zero for a null. */
  function OptionLen(s: Option<Utf8Bytes>): nat
  {
    if s.Some? then |s.value| else 0
  }

  lemma ValueBytesAppend(strs: seq<Option<Utf8Bytes>>, s: Option<Utf8Bytes>)
    ensures ValueBytes(strs + [s]) == ValueBytes(strs) + OptionLen(s)
  {
    assert (strs + [s])[..|strs|] == strs;
  }

  /** The validity bitmap a builder holding these cells carries. */
  function Validity(c: Column): Option<nat>
  {
    if None in c.Cells() then Some(c.Len()) else None
  }

  /** `mem_usage` of a column builder, by kind. */
  function ColumnMem(c: Column): nat
  {
    match c
    case BoolColumn(_) => BooleanUsage(Validity(c), c.Len())
    case I32Column(_) => PrimitiveUsage(Validity(c), c.Len(), I32Size)
    case I64Column(_) => PrimitiveUsage(Validity(c), c.Len(), I64Size)
    case F64Column(_) => PrimitiveUsage(Validity(c), c.Len(), F64Size)
    case Utf8Column(strs) => Utf8Usage(Validity(c), ValueBytes(strs), c.Len() + 1, OffsetSize)
  }

  /** A fresh builder costs nothing, except that a string builder already holds its
      leading zero offset. */
  lemma EmptyColumnMem(k: Kind)
    ensures ColumnMem(Empty(k)) == if k == String then OffsetSize else 0
  {
  }

  /** A column's cost by kind, in terms of its cells: one bit per cell of validity once
      any cell is null, plus the value buffers (one bit per boolean, four or eight bytes
      per numeric slot, the string bytes plus one more 32-bit offset than there are cells). */
  lemma ColumnMemByKind(c: Column)
    ensures var validity := if None in c.Cells() then c.Len() / 8 else 0;
      && (c.BoolColumn? ==> ColumnMem(c) == validity + c.Len() / 8)
      && (c.I32Column? ==> ColumnMem(c) == validity + 4 * c.Len())
      && (c.I64Column? || c.F64Column? ==> ColumnMem(c) == validity + 8 * c.Len())
      && (c.Utf8Column? ==> ColumnMem(c) == validity + ValueBytes(c.strs) + 4 * (c.Len() + 1))
  {
  }

  /** Appending a cell never lowers a column's cost. */
  lemma {:induction false} ColumnMemMonotone(c: Column, cell: Option<Value>)
    requires c.Accepts(cell)
    ensures ColumnMem(c) <= ColumnMem(c.Append(cell))
  {
    var d := c.Append(cell);
    assert d.Cells() == c.Cells() + [cell];
    assert ValidityLe(Validity(c), Validity(d)) by {
      if None in c.Cells() {
        assert None in d.Cells();
      }
    }
    match c
    case Utf8Column(strs) =>
      var x := if cell.Some? then Some(cell.value.s) else None;
      assert d.strs == strs + [x];
      ValueBytesAppend(strs, x);
      UsageMonotone(Validity(c), Validity(d), ValueBytes(strs), ValueBytes(d.strs), c.Len() + 1, d.Len() + 1, OffsetSize);
    case BoolColumn(_) =>
      UsageMonotone(Validity(c), Validity(d), c.Len(), d.Len(), 0, 0, 1);
    case I32Column(_) =>
      UsageMonotone(Validity(c), Validity(d), c.Len(), d.Len(), 0, 0, I32Size);
    case I64Column(_) =>
      UsageMonotone(Validity(c), Validity(d), c.Len(), d.Len(), 0, 0, I64Size);
    case F64Column(_) =>
      UsageMonotone(Validity(c), Validity(d), c.Len(), d.Len(), 0, 0, F64Size);
  }
}
