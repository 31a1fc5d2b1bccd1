/** Column kinds and column builders (`Kind` and `VarArray` of src/table.rs).

    The source erases a builder's type behind a boxed trait object and recovers it by a
    runtime downcast; here a column is a tagged union with one case per `Kind`, each
    holding the pushed cells in order (`None` for a null). */
module Columns {
  import opened Wrappers
  import Arrow

  newtype byte = x: int | 0 <= x < 0x100

  type Int32 = x: int | -0x8000_0000 <= x < 0x8000_0000

  type Int64 = x: int | -0x8000_0000_0000_0000 <= x < 0x8000_0000_0000_0000

  /** A 64-bit float, kept as its bit pattern: only how many values a column holds and
      their width matter to this model. */
  datatype Float64Bits = Float64Bits(bits: bv64)

  /** A string as its UTF-8 bytes; the source's `str::len` is this byte count. */
  type Utf8Bytes = seq<byte>

  /** The closed set of column kinds a table supports. */
  datatype Kind = Bool | I32 | I64 | F64 | String
  {
    /** The external data type a column of this kind is written as. */
    function ToArrow(): Arrow.DataType
    {
      match this
      case Bool => Arrow.Boolean
      case I32 => Arrow.Int32
      case I64 => Arrow.Int64
      case F64 => Arrow.Float64
      case String => Arrow.Utf8
    }
  }

  /** No two kinds are written as the same external type. */
  lemma ToArrowInjective(a: Kind, b: Kind)
    ensures a.ToArrow() == b.ToArrow() ==> a == b
  {
  }

  /** One non-null cell, tagged with the kind of column it belongs in. */
  datatype Value =
    | BoolValue(b: bool)
    | I32Value(i: Int32)
    | I64Value(l: Int64)
    | F64Value(f: Float64Bits)
    | Utf8Value(s: Utf8Bytes)
  {
    function KindOf(): Kind
    {
      match this
      case BoolValue(_) => Bool
      case I32Value(_) => I32
      case I64Value(_) => I64
      case F64Value(_) => F64
      case Utf8Value(_) => String
    }
  }

  /** Views a column's typed cells as tagged values. */
  function Lift<T>(xs: seq<Option<T>>, tag: T -> Value): (r: seq<Option<Value>>)
    ensures |r| == |xs|
  {
    seq(|xs|, j requires 0 <= j < |xs| => if xs[j].Some? then Some(tag(xs[j].value)) else None)
  }

  lemma LiftAppend<T>(xs: seq<Option<T>>, tag: T -> Value, x: Option<T>)
    ensures Lift(xs + [x], tag) == Lift(xs, tag) + Lift([x], tag)
  {
  }

  /** A column builder: one growable, null-aware buffer of a single kind. */
  datatype Column =
    | BoolColumn(bools: seq<Option<bool>>)
    | I32Column(ints: seq<Option<Int32>>)
    | I64Column(longs: seq<Option<Int64>>)
    | F64Column(doubles: seq<Option<Float64Bits>>)
    | Utf8Column(strs: seq<Option<Utf8Bytes>>)
  {
    function KindOf(): Kind
    {
      match this
      case BoolColumn(_) => Bool
      case I32Column(_) => I32
      case I64Column(_) => I64
      case F64Column(_) => F64
      case Utf8Column(_) => String
    }

    /** The number of cells, nulls included. */
    function Len(): nat
    {
      match this
      case BoolColumn(xs) => |xs|
      case I32Column(xs) => |xs|
      case I64Column(xs) => |xs|
      case F64Column(xs) => |xs|
      case Utf8Column(xs) => |xs|
    }

    /** The cells in push order, each non-null one tagged with its kind. */
    function Cells(): (r: seq<Option<Value>>)
      ensures |r| == Len()
      ensures forall j :: 0 <= j < |r| && r[j].Some? ==> r[j].value.KindOf() == KindOf()
    {
      match this
      case BoolColumn(xs) => Lift(xs, (b: bool) => BoolValue(b))
      case I32Column(xs) => Lift(xs, (i: Int32) => I32Value(i))
      case I64Column(xs) => Lift(xs, (l: Int64) => I64Value(l))
      case F64Column(xs) => Lift(xs, (f: Float64Bits) => F64Value(f))
      case Utf8Column(xs) => Lift(xs, (s: Utf8Bytes) => Utf8Value(s))
    }

    /** A cell this column can hold: a null, or a value of the column's kind. */
    predicate Accepts(cell: Option<Value>)
    {
      cell.Some? ==> cell.value.KindOf() == KindOf()
    }

    /** The builder's push: one more cell at the end, the kind unchanged. */
    function Append(cell: Option<Value>): (r: Column)
      requires Accepts(cell)
      ensures r.KindOf() == KindOf()
      ensures r.Cells() == Cells() + [cell]
    {
      match this
      case BoolColumn(xs) =>
        var x := if cell.Some? then Some(cell.value.b) else None;
        LiftAppend(xs, (b: bool) => BoolValue(b), x);
        BoolColumn(xs + [x])
      case I32Column(xs) =>
        var x := if cell.Some? then Some(cell.value.i) else None;
        LiftAppend(xs, (i: Int32) => I32Value(i), x);
        I32Column(xs + [x])
      case I64Column(xs) =>
        var x := if cell.Some? then Some(cell.value.l) else None;
        LiftAppend(xs, (l: Int64) => I64Value(l), x);
        I64Column(xs + [x])
      case F64Column(xs) =>
        var x := if cell.Some? then Some(cell.value.f) else None;
        LiftAppend(xs, (f: Float64Bits) => F64Value(f), x);
        F64Column(xs + [x])
      case Utf8Column(xs) =>
        var x := if cell.Some? then Some(cell.value.s) else None;
        LiftAppend(xs, (s: Utf8Bytes) => Utf8Value(s), x);
        Utf8Column(xs + [x])
    }
  }

  /** A fresh builder of kind `k` (`Kind::array_with_capacity`; the capacity is only an
      allocation hint and does not show in the contents). */
  function Empty(k: Kind): (c: Column)
    ensures c.KindOf() == k
    ensures c.Cells() == []
  {
    match k
    case Bool => BoolColumn([])
    case I32 => I32Column([])
    case I64 => I64Column([])
    case F64 => F64Column([])
    case String => Utf8Column([])
  }

  /** A column is determined by its kind and its cells: the tagged view loses nothing. */
  lemma {:induction false} CellsDetermineColumn(c: Column, d: Column)
    requires c.KindOf() == d.KindOf()
    requires c.Cells() == d.Cells()
    ensures c == d
  {
    match c
    case BoolColumn(xs) =>
      var ys := d.bools;
      forall j | 0 <= j < |xs| ensures xs[j] == ys[j] {
        assert c.Cells()[j] == d.Cells()[j];
      }
    case I32Column(xs) =>
      var ys := d.ints;
      forall j | 0 <= j < |xs| ensures xs[j] == ys[j] {
        assert c.Cells()[j] == d.Cells()[j];
      }
    case I64Column(xs) =>
      var ys := d.longs;
      forall j | 0 <= j < |xs| ensures xs[j] == ys[j] {
        assert c.Cells()[j] == d.Cells()[j];
      }
    case F64Column(xs) =>
      var ys := d.doubles;
      forall j | 0 <= j < |xs| ensures xs[j] == ys[j] {
        assert c.Cells()[j] == d.Cells()[j];
      }
    case Utf8Column(xs) =>
      var ys := d.strs;
      forall j | 0 <= j < |xs| ensures xs[j] == ys[j] {
        assert c.Cells()[j] == d.Cells()[j];
      }
  }
}
