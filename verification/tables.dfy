/** The typed column table (src/table.rs): one builder per schema entry, type-checked
    pushes with a cheap running memory estimate, the consistency check, the bulk
    recomputation of the estimate, and batch extraction.

    `Table` is a value; an operation on `&mut self` returns the table it leaves behind in
    a `Step`, together with what the source call returns. */
module Tables {
  import opened Wrappers
  import opened Columns
  import Arrow
  import Mem

  /** One output column's declaration: what the writer needs to know of it. */
  datatype TableField = TableField(name: string, kind: Kind, nullable: bool, encoding: Arrow.Encoding)

  datatype TableError =
    | TypeMismatch(column: nat, found: Kind, pushed: Kind)
    | OffsetOverflow(column: nat)
    | SchemaViolation(column: nat, expectedRows: nat, actualRows: nat)

  /** The detached, finished columns of one row group, in schema order. */
  type Batch = seq<Column>

  datatype Table = Table(schema: seq<Kind>, columns: seq<Column>, cap: nat, memUsed: nat)

  /** The largest byte offset a string builder with 32-bit offsets can record (`i32::MAX`). */
  const MaxOffset: nat := 0x7FFF_FFFF

  /** One builder per schema entry, each of the declared kind. */
  predicate Valid(t: Table)
  {
    && |t.columns| == |t.schema|
    && forall i :: 0 <= i < |t.columns| ==> t.columns[i].KindOf() == t.schema[i]
  }

  /** Every column holds the same number of cells. */
  predicate Consistent(cols: seq<Column>)
  {
    forall i, j :: 0 <= i < |cols| && 0 <= j < |cols| ==> cols[i].Len() == cols[j].Len()
  }

  /** Every column is empty. */
  predicate AllEmpty(cols: seq<Column>)
  {
    forall i :: 0 <= i < |cols| ==> cols[i].Cells() == []
  }

  /** Fresh builders for a schema (`make_builders`). */
  function MakeBuilders(schema: seq<Kind>, cap: nat): (cols: seq<Column>)
    ensures |cols| == |schema|
    ensures forall i :: 0 <= i < |cols| ==> cols[i].KindOf() == schema[i]
    ensures AllEmpty(cols)
  {
    seq(|schema|, i requires 0 <= i < |schema| => Empty(schema[i]))
  }

  /** `Table::with_capacity`: one empty builder per schema entry and a zero estimate. */
  function WithCapacity(schema: seq<Kind>, cap: nat): (t: Table)
    ensures Valid(t)
    ensures t.schema == schema && t.cap == cap
    ensures AllEmpty(t.columns)
    ensures MemEstimate(t) == 0
  {
    Table(schema, MakeBuilders(schema, cap), cap, 0)
  }

  function MemEstimate(t: Table): nat
  {
    t.memUsed
  }

  /** The row count is column 0's length; the source indexes column 0 unconditionally, so
      an empty schema is outside its domain. */
  function Rows(t: Table): (r: nat)
    requires |t.columns| > 0
    ensures Consistent(t.columns) ==> forall i :: 0 <= i < |t.columns| ==> t.columns[i].Len() == r
    ensures r == 0 <==> t.columns[0].Cells() == []
  {
    t.columns[0].Len()
  }

  /** Column `i` gained exactly `cell` at its end; every other column, the schema and the
      capacity are as before. */
  predicate AppendedAt(t: Table, r: Table, i: nat, cell: Option<Value>)
    requires i < |t.columns|
  {
    && r.schema == t.schema
    && r.cap == t.cap
    && |r.columns| == |t.columns|
    && r.columns[i].KindOf() == t.columns[i].KindOf()
    && r.columns[i].Cells() == t.columns[i].Cells() + [cell]
    && forall j :: 0 <= j < |t.columns| && j != i ==> r.columns[j] == t.columns[j]
  }

  /** The table with `cell` appended to column `i` and `cost` added to the estimate. */
  function Appended(t: Table, i: nat, cell: Option<Value>, cost: nat): (r: Table)
    requires Valid(t) && i < |t.columns|
    requires t.columns[i].Accepts(cell)
    ensures Valid(r)
    ensures AppendedAt(t, r, i, cell)
    ensures MemEstimate(r) == MemEstimate(t) + cost
  {
    t.(columns := t.columns[i := t.columns[i].Append(cell)], memUsed := t.memUsed + cost)
  }

  /** `push_null`: any column takes a null; the estimate grows by one byte. */
  function PushNull(t: Table, i: nat): (r: Table)
    requires Valid(t) && i < |t.columns|
    ensures Valid(r)
    ensures AppendedAt(t, r, i, None)
    ensures MemEstimate(r) == MemEstimate(t) + 1
  {
    Appended(t, i, None, 1)
  }

  /** The estimate charged for pushing an optional string: its bytes plus one offset. */
  function StrCost(val: Option<Utf8Bytes>): nat
  {
    Mem.OptionLen(val) + Mem.I32Size
  }

  /** The cell a pushed optional string becomes. */
  function StrCell(val: Option<Utf8Bytes>): Option<Value>
  {
    if val.Some? then Some(Utf8Value(val.value)) else None
  }

  /** Pushing `val` would take the string builder's last offset past `i32::MAX`. */
  predicate OffsetOverflows(c: Column, val: Option<Utf8Bytes>)
  {
    c.Utf8Column? && val.Some? && Mem.ValueBytes(c.strs) + |val.value| > MaxOffset
  }

  /** `push_str`: only a string column takes a string. On a mismatch nothing changes. On a
      string column the estimate grows by the string's bytes plus four before the push is
      attempted, so an offset overflow fails with the estimate grown and the cells as before. */
  function PushStr(t: Table, i: nat, val: Option<Utf8Bytes>): (r: Step<Table, TableError>)
    requires Valid(t) && i < |t.columns|
    ensures t.schema[i] != String ==> r == Step(t, Fail(TypeMismatch(i, t.schema[i], String)))
    ensures r.outcome.Pass? <==> t.schema[i] == String && !OffsetOverflows(t.columns[i], val)
    ensures t.schema[i] == String ==> MemEstimate(r.state) == MemEstimate(t) + StrCost(val)
    ensures r.outcome.Pass? ==> Valid(r.state) && AppendedAt(t, r.state, i, StrCell(val))
    ensures t.schema[i] == String && r.outcome.Fail? ==>
              r.state == t.(memUsed := r.state.memUsed) && r.outcome.error == OffsetOverflow(i)
  {
    if t.columns[i].Utf8Column? then
      var charged := t.(memUsed := t.memUsed + StrCost(val));
      if OffsetOverflows(t.columns[i], val) then Step(charged, Fail(OffsetOverflow(i)))
      else Step(Appended(t, i, StrCell(val), StrCost(val)), Pass)
    else
      Step(t, Fail(TypeMismatch(i, t.columns[i].KindOf(), String)))
  }

  /** `push_bool`: only a boolean column takes a boolean; the estimate grows by one byte. */
  function PushBool(t: Table, i: nat, val: bool): (r: Step<Table, TableError>)
    requires Valid(t) && i < |t.columns|
    ensures r.outcome.Pass? <==> t.schema[i] == Bool
    ensures r.outcome.Fail? ==> r == Step(t, Fail(TypeMismatch(i, t.schema[i], Bool)))
    ensures r.outcome.Pass? ==> Valid(r.state) && AppendedAt(t, r.state, i, Some(BoolValue(val)))
    ensures r.outcome.Pass? ==> MemEstimate(r.state) == MemEstimate(t) + 1
  {
    if t.columns[i].BoolColumn? then Step(Appended(t, i, Some(BoolValue(val)), 1), Pass)
    else Step(t, Fail(TypeMismatch(i, t.columns[i].KindOf(), Bool)))
  }

  /** A value of one of the native numeric types `push_primitive` is instantiated at. */
  datatype Native = NativeI32(i: Int32) | NativeI64(l: Int64) | NativeF64(f: Float64Bits)
  {
    /** The only kind of builder whose downcast succeeds for this type. */
    function KindOf(): Kind
    {
      match this
      case NativeI32(_) => I32
      case NativeI64(_) => I64
      case NativeF64(_) => F64
    }

    /** `size_of` the native type. */
    function SizeOf(): nat
    {
      match this
      case NativeI32(_) => Mem.I32Size
      case NativeI64(_) => Mem.I64Size
      case NativeF64(_) => Mem.F64Size
    }

    function ToValue(): (v: Value)
      ensures v.KindOf() == KindOf()
    {
      match this
      case NativeI32(x) => I32Value(x)
      case NativeI64(x) => I64Value(x)
      case NativeF64(x) => F64Value(x)
    }
  }

  /** `push_primitive`: only a column of the value's own type takes it; the estimate grows
      by the type's size. */
  function PushPrimitive(t: Table, i: nat, val: Native): (r: Step<Table, TableError>)
    requires Valid(t) && i < |t.columns|
    ensures r.outcome.Pass? <==> t.schema[i] == val.KindOf()
    ensures r.outcome.Fail? ==> r == Step(t, Fail(TypeMismatch(i, t.schema[i], val.KindOf())))
    ensures r.outcome.Pass? ==> Valid(r.state) && AppendedAt(t, r.state, i, Some(val.ToValue()))
    ensures r.outcome.Pass? ==> MemEstimate(r.state) == MemEstimate(t) + val.SizeOf()
  {
    if t.columns[i].KindOf() == val.KindOf() then
      Step(Appended(t, i, Some(val.ToValue()), val.SizeOf()), Pass)
    else
      Step(t, Fail(TypeMismatch(i, t.columns[i].KindOf(), val.KindOf())))
  }

  /** `finish_row` is a hook with nothing to do: it always succeeds and changes nothing. */
  function FinishRow(t: Table): (r: Step<Table, TableError>)
    ensures r.outcome.Pass? && r.state == t
  {
    Step(t, Pass)
  }

  /** `take_batch`: detaches every column, in schema order and with its contents, and leaves
      fresh empty builders and a zero estimate behind. */
  function TakeBatch(t: Table): (r: (Batch, Table))
    requires Valid(t)
    ensures r.0 == t.columns
    ensures |r.0| == |t.schema|
    ensures forall i :: 0 <= i < |r.0| ==> r.0[i].KindOf() == t.schema[i] && r.0[i].Cells() == t.columns[i].Cells()
    ensures Valid(r.1)
    ensures r.1.schema == t.schema && r.1.cap == t.cap
    ensures AllEmpty(r.1.columns)
    ensures MemEstimate(r.1) == 0
    ensures |t.schema| > 0 ==> Rows(r.1) == 0
  {
    (t.columns, WithCapacity(t.schema, t.cap))
  }

  /** `check_consistent`: fails naming the first column whose length differs from column 0's. */
  function CheckConsistent(t: Table): (r: Outcome<TableError>)
    ensures r.Pass? <==> Consistent(t.columns)
    ensures r.Fail? ==> && r.error.SchemaViolation?
                        && 0 < r.error.column < |t.columns|
                        && r.error.expectedRows == t.columns[0].Len()
                        && r.error.actualRows == t.columns[r.error.column].Len()
                        && r.error.actualRows != r.error.expectedRows
                        && forall j :: 0 < j < r.error.column ==> t.columns[j].Len() == t.columns[0].Len()
  {
    if |t.columns| == 0 then Pass else CheckFrom(t.columns, 1)
  }

  function CheckFrom(cols: seq<Column>, from: nat): (r: Outcome<TableError>)
    requires 0 < from <= |cols|
    ensures r.Pass? <==> forall i :: from <= i < |cols| ==> cols[i].Len() == cols[0].Len()
    ensures r.Fail? ==> && r.error.SchemaViolation?
                        && from <= r.error.column < |cols|
                        && r.error.expectedRows == cols[0].Len()
                        && r.error.actualRows == cols[r.error.column].Len()
                        && r.error.actualRows != r.error.expectedRows
                        && forall j :: from <= j < r.error.column ==> cols[j].Len() == cols[0].Len()
    decreases |cols| - from
  {
    if from == |cols| then Pass
    else if cols[from].Len() != cols[0].Len() then
      Fail(SchemaViolation(from, cols[0].Len(), cols[from].Len()))
    else CheckFrom(cols, from + 1)
  }

  /** Sum of the builders' `mem_usage`. */
  function TableMem(cols: seq<Column>): nat
  {
    if |cols| == 0 then 0 else TableMem(cols[..|cols| - 1]) + Mem.ColumnMem(cols[|cols| - 1])
  }

  /** `finish_bulk_push`: checks consistency, then replaces the running estimate by the
      authoritative sum over the builders. A failed check changes nothing. */
  function FinishBulkPush(t: Table): (r: Step<Table, TableError>)
    ensures r.outcome.Pass? <==> Consistent(t.columns)
    ensures r.outcome.Fail? ==> r.state == t && r.outcome == CheckConsistent(t)
    ensures r.outcome.Pass? ==> r.state == t.(memUsed := TableMem(t.columns))
  {
    match CheckConsistent(t)
    case Fail(e) => Step(t, Fail(e))
    case Pass => Step(t.(memUsed := TableMem(t.columns)), Pass)
  }

  /** One push of any kind, as the callers of the table issue them. */
  datatype Push =
    | NullPush(col: nat)
    | StrPush(col: nat, str: Option<Utf8Bytes>)
    | BoolPush(col: nat, b: bool)
    | PrimitivePush(col: nat, native: Native)
  {
    /** What a successful push adds to the running estimate. */
    function Cost(): nat
    {
      match this
      case NullPush(_) => 1
      case StrPush(_, s) => StrCost(s)
      case BoolPush(_, _) => 1
      case PrimitivePush(_, v) => v.SizeOf()
    }

    /** The cell the push appends when it succeeds. */
    function Cell(): Option<Value>
    {
      match this
      case NullPush(_) => None
      case StrPush(_, s) => StrCell(s)
      case BoolPush(_, b) => Some(BoolValue(b))
      case PrimitivePush(_, v) => Some(v.ToValue())
    }
  }

  function ApplyPush(t: Table, p: Push): (r: Step<Table, TableError>)
    requires Valid(t) && p.col < |t.columns|
    ensures Valid(r.state) && r.state.schema == t.schema && r.state.cap == t.cap
    ensures MemEstimate(t) <= MemEstimate(r.state)
    ensures r.outcome.Pass? ==> AppendedAt(t, r.state, p.col, p.Cell())
    ensures r.outcome.Pass? ==> MemEstimate(r.state) == MemEstimate(t) + p.Cost()
    ensures r.outcome.Fail? ==> r.state.columns == t.columns
  {
    match p
    case NullPush(i) => Step(PushNull(t, i), Pass)
    case StrPush(i, s) => PushStr(t, i, s)
    case BoolPush(i, b) => PushBool(t, i, b)
    case PrimitivePush(i, v) => PushPrimitive(t, i, v)
  }

  predicate PushesInRange(ps: seq<Push>, width: nat)
  {
    forall j :: 0 <= j < |ps| ==> ps[j].col < width
  }

  /** The cells the pushes in `ps` aimed at column `k`, in push order. */
  function PushedCells(ps: seq<Push>, k: nat): seq<Option<Value>>
  {
    if |ps| == 0 then []
    else (if ps[0].col == k then [ps[0].Cell()] else []) + PushedCells(ps[1..], k)
  }

  /** A sequence of pushes, stopping at the first failure as a caller propagating errors
      with `?` does. The estimate never decreases, and when every push succeeds each column
      has gained exactly the cells aimed at it, in order. */
  function ApplyPushes(t: Table, ps: seq<Push>): (r: Step<Table, TableError>)
    requires Valid(t) && PushesInRange(ps, |t.columns|)
    ensures Valid(r.state) && r.state.schema == t.schema && r.state.cap == t.cap
    ensures MemEstimate(t) <= MemEstimate(r.state)
    ensures r.outcome.Pass? ==>
              forall k :: 0 <= k < |t.columns| ==>
                r.state.columns[k].Cells() == t.columns[k].Cells() + PushedCells(ps, k)
    decreases |ps|
  {
    if |ps| == 0 then Step(t, Pass)
    else
      var s := ApplyPush(t, ps[0]);
      if s.outcome.Fail? then s
      else
        assert PushesInRange(ps[1..], |t.columns|) by {
          forall j | 0 <= j < |ps| - 1 ensures ps[1..][j].col < |t.columns| {
            assert ps[1..][j] == ps[j + 1];
          }
        }
        var r := ApplyPushes(s.state, ps[1..]);
        assert r.outcome.Pass? ==> forall k :: 0 <= k < |t.columns| ==>
            r.state.columns[k].Cells() == t.columns[k].Cells() + PushedCells(ps, k) by {
          if r.outcome.Pass? {
            forall k | 0 <= k < |t.columns|
              ensures r.state.columns[k].Cells() == t.columns[k].Cells() + PushedCells(ps, k)
            {
              PushedCellsStep(t.columns[k].Cells(), s.state.columns[k].Cells(), r.state.columns[k].Cells(), ps, k);
            }
          }
        }
        r
  }

  /** The estimate the pushes add up to when every one of them succeeds. */
  function TotalCost(ps: seq<Push>): nat
  {
    if |ps| == 0 then 0 else ps[0].Cost() + TotalCost(ps[1..])
  }

  /** `mem_estimate` after a run of successful pushes is the starting estimate plus each
      push's charge: one byte per null or boolean, the type's size per primitive, and the
      string's bytes plus four per string. */
  lemma {:induction false} MemEstimateCharges(t: Table, ps: seq<Push>)
    requires Valid(t) && PushesInRange(ps, |t.columns|)
    ensures ApplyPushes(t, ps).outcome.Pass? ==>
              MemEstimate(ApplyPushes(t, ps).state) == MemEstimate(t) + TotalCost(ps)
    decreases |ps|
  {
    if |ps| > 0 && ApplyPushes(t, ps).outcome.Pass? {
      var s := ApplyPush(t, ps[0]);
      assert PushesInRange(ps[1..], |t.columns|) by {
        forall j | 0 <= j < |ps| - 1 ensures ps[1..][j].col < |t.columns| {
          assert ps[1..][j] == ps[j + 1];
        }
      }
      assert ApplyPushes(t, ps) == ApplyPushes(s.state, ps[1..]);
      MemEstimateCharges(s.state, ps[1..]);
    }
  }

  /** One push's cells, then the rest's, are the cells of all the pushes. */
  lemma PushedCellsStep(before: seq<Option<Value>>, mid: seq<Option<Value>>, after: seq<Option<Value>>,
                        ps: seq<Push>, k: nat)
    requires |ps| > 0
    requires mid == before + (if ps[0].col == k then [ps[0].Cell()] else [])
    requires after == mid + PushedCells(ps[1..], k)
    ensures after == before + PushedCells(ps, k)
  {
  }
}
