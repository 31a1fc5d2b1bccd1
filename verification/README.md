# Columnar table packer: a Dafny model

This project models the in-memory core of a Rust crate that turns row-wise data into
columnar Parquet row groups:

- **Columns and kinds** (`columns.dfy`, `arrow.dfy`): the closed set of column kinds
  (`Bool`, `I32`, `I64`, `F64`, `String`), the external data type each is written as, and
  a column builder as a tagged union holding its cells in push order (`None` for a null).
- **Memory formulas** (`mem.dfy`): the byte-cost formulas of `MemUsage` for vectors,
  bitmaps, optional validity bitmaps and the fixed-width binary, string, primitive and
  boolean builders, and the cost of a column derived from its cells.
- **The table** (`tables.dfy`): a schema of kinds with one builder per entry, type-checked
  pushes with a cheap running memory estimate, the consistency check, the bulk
  recomputation of the estimate, and batch extraction.
- **The packer** (`packer.dfy`): the flush policy over a table and a writer. The writer is
  represented by the list of batches submitted to it, in order. An event stream
  (`Run`) drives a packer the way a caller does, stopping at the first error.
- **Repack schema derivation** (`repack.dfy`): the first-match field lookup, the
  flat-map from ops (error-out, copy, split) to output fields, the mapping of output data
  types back to table kinds, and the per-op input lookup of the row-group loop.

Operations that take `&mut self` are pure functions here. They return a
`Step(state, outcome)`: the state the call leaves behind plus `Pass` or `Fail(error)`.
A failing call can still change state: `push_str` raises the estimate before the push
can fail on an offset overflow.

The model follows the crate's code:

- The code has five kinds.
- `Copy` and the table schema always use `Plain` encoding, whatever the data type.
- The actions are error-out, copy and split; the code has no drop action.
- An unsupported output type ends in `unimplemented!` (a panic). Here it is the error
  `ExternalTypeUnsupported`.
- `check_consistent`, `finish_bulk_push` and `TableField` are used by the code but not
  defined in the files modelled. They are modelled as their call sites use them:
  - the check fails on the first column whose length differs from column 0's;
  - the bulk push re-checks, then sets the estimate to the sum of the builders' usage.

## Model

| member | source | states |
|---|---|---|
| Columns.Empty | src/table.rs:21-29 | a fresh builder has the requested kind and no cells; the capacity hint does not show |
| Columns.ToArrowInjective | src/table.rs:31-39 | no two kinds are written as the same external data type |
| Mem.BitmapUsage | src/mem.rs:20-24 | a bitmap of n bits costs the whole bytes it fills: 8r <= n < 8r+8, and nothing below 8 bits |
| Mem.ValidityUsageCases | src/mem.rs:26-30 | an absent validity bitmap costs nothing; a present one costs its bitmap's bytes |
| Mem.FixedSizeBinaryIgnoresValidity | src/mem.rs:32-36 | the fixed-width binary cost is its value bytes and does not depend on the validity bitmap |
| Mem.UsageMonotone | src/mem.rs:13-54 | growing any buffer (validity, values, offsets) never lowers any of the seven formulas |
| Mem.EmptyColumnMem | src/mem.rs:38-54 | a fresh builder costs nothing, except a string builder, which already holds one 4-byte offset |
| Mem.ColumnMemByKind | src/mem.rs:38-54 | a column's cost in terms of its cells: validity bytes once a null exists, plus one bit per boolean, 4 or 8 bytes per numeric slot, or the string bytes plus 4 bytes per offset (one more offset than cells) |
| Mem.ColumnMemMonotone | src/mem.rs:13-54 | appending any acceptable cell never lowers a column's cost |
| Tables.Rows | src/table.rs:91-93 | the row count is column 0's length: zero exactly when column 0 has no cells, and every column's length when the table is consistent |
| Tables.MemEstimateCharges | src/table.rs:87-138 | the estimate after a run of successful pushes is the starting one plus each push's charge: one per null or boolean, the type's size per primitive, the string's bytes plus four per string |
| Tables.MakeBuilders | src/table.rs:70-75 | one empty builder per schema entry, of that entry's kind, in schema order |
| Tables.WithCapacity | src/table.rs:78-85 | the new table is well formed, keeps the schema and capacity, has only empty columns and a zero estimate |
| Tables.PushNull | src/table.rs:95-100 | any column takes a null: exactly that column gains a null cell at its end, the rest are unchanged, the estimate grows by one |
| Tables.PushStr | src/table.rs:102-112 | succeeds exactly on a string column whose offsets do not overflow; a mismatch changes nothing and names the column and kinds; on a string column the estimate grows by the byte length plus four even when the push then fails on overflow, with the cells unchanged |
| Tables.PushBool | src/table.rs:114-124 | succeeds exactly on a boolean column, appending the value there only and adding one to the estimate; otherwise nothing changes |
| Tables.PushPrimitive | src/table.rs:126-138 | succeeds exactly on a column of the value's own type, appending it and adding the type's size to the estimate; otherwise nothing changes |
| Tables.FinishRow | src/table.rs:140-142 | always succeeds and changes nothing |
| Tables.TakeBatch | src/table.rs:144-149 | the batch is exactly the table's columns, every column with its kind and cells, in schema order; the table left behind keeps schema and capacity, is empty, has a zero estimate and zero rows |
| Tables.CheckConsistent | src/packer.rs:29-30 | passes exactly when all columns have the same length; a failure names the first column whose length differs from column 0's, with both lengths |
| Tables.FinishBulkPush | src/packer.rs:45-47 | passes exactly when the table is consistent, and then sets the estimate to the sum of the builders' usage; a failure changes nothing and reports the consistency error |
| Tables.ApplyPush | src/table.rs:95-138 | any push keeps the table well formed and never lowers the estimate; a success appends the push's cell to its column only and adds the push's charge to the estimate; a failure leaves every column's cells as they were |
| Tables.ApplyPushes | src/table.rs:95-138 | a run of pushes never lowers the estimate; when all succeed, each column has gained exactly the cells aimed at it, in push order |
| Packing.New | src/packer.rs:14-19 | the table has the fields' kinds in order, capacity 0, empty columns and a zero estimate; the writer has received nothing |
| Packing.Flush | src/packer.rs:39-61 | with no rows nothing happens; otherwise it succeeds exactly when the table is consistent, and then the writer receives the table's columns as one more batch and the table is emptied; a failure changes nothing |
| Packing.ConsiderFlushing | src/packer.rs:29-37 | fails exactly on an inconsistent table, changing nothing; flushes exactly when the estimate is above 512 MiB or the rows above 100,000 (both strict) and there are rows; otherwise changes nothing |
| Packing.Finish | src/packer.rs:63-66 | returns every batch submitted so far plus the remainder when it has rows; with zero rows in column 0 it returns the earlier batches and checks nothing |
| Packing.StepEvent | src/packer.rs:29-61 | one driver event keeps the packer well formed and only ever adds batches at the writer's end |
| Packing.Run | src/packer.rs:56-58 | a run of events keeps the schema and never takes back or reorders a submitted batch |
| Packing.ConsideredEventConserves | src/packer.rs:29-61 | considering a flush moves cells from the table to the writer without losing or duplicating any |
| Packing.RunConserves | src/packer.rs:29-61 | over a successful run, each column's cells written so far plus those still in the table equal what was there before plus exactly the cells pushed to it, in order |
| Packing.FinishDropsUnevenRemainder | src/packer.rs:39-43 | as written, finishing after one string pushed into column 1 of an (I64, String) table returns success with no batches: the string is lost |
| Packing.FinishChecked | src/packer.rs:63-66 | finish with the consistency check: fails exactly on an inconsistent table with the check's error, otherwise returns the earlier batches plus the remainder when it has rows |
| Packing.FinishDeliversEveryRow | src/packer.rs:14-66 | from a new packer, after any successful run and a successful checked finish, every batch fits the schema and is non-empty, and the batches hold each column's pushed cells exactly, in order |
| Packing.NoPushesNoBatches | src/packer.rs:39-66 | a packer that is never pushed to cannot fail, and finishing it, as written or checked, returns no batches |
| Repack.FindField | src/repack.rs:49-55 | the position and field of the first field with that name; none exactly when no field has it |
| Repack.Contribution | src/repack.rs:66-80 | error-out contributes nothing; copy contributes the first input field of that name with its type and nullability, plain-encoded, and fails exactly when there is none; split contributes its declared outputs unchanged |
| Repack.OutSchema | src/repack.rs:62-83 | succeeds exactly when every op's contribution does, and then has as many fields as the ops declare |
| Repack.OutSchemaFirstError | src/repack.rs:62-83 | a failing derivation reports the first failing op's error |
| Repack.OutSchemaConcat | src/repack.rs:62-83 | deriving for a concatenation of op lists concatenates the results in op order, the first list's error winning |
| Repack.ContributionInPlace | src/repack.rs:62-83 | in a successful derivation each op's contribution sits unchanged right after the fields declared by the ops before it |
| Repack.TableKind | src/repack.rs:88-95 | a supported type maps to the kind written as that type; the rest are exactly the types no kind is written as |
| Repack.KindRoundTrip | src/repack.rs:88-93 | mapping the type a kind is written as gives back that kind |
| Repack.ToTableField | src/repack.rs:87-102 | succeeds exactly for supported types, keeping the name, with the kind written as the field's type, not nullable, plain-encoded |
| Repack.TableSchema | src/repack.rs:85-103 | succeeds exactly when every output type is supported, giving one table field per output field, in order |
| Repack.TableSchemaFirstError | src/repack.rs:85-103 | a failing mapping reports the first unsupported output type |
| Repack.DeriveSchema | src/repack.rs:62-103 | the table schema exists exactly when the output fields derive and all their types are supported, with one table field per declared output, each carrying its output field's name and the kind written as its type, not nullable, plain-encoded |
| Repack.ResolveInputs | src/repack.rs:110-112 | every op's input resolves to the position of the first field of that name, or the lookup fails |
| Repack.ResolveInputsFirstError | src/repack.rs:110-112 | a failing lookup names the first op whose input field is missing |

## Left out

- src/write.rs is not part of this model. It holds the writer thread, the bounded
  channel, Parquet encoding and compression. The writer is only the ordered list of
  submitted batches, so failures of `Writer::new`, `submit_batch` and `Writer::finish`
  are not modelled.
- src/erratum.rs is not part of this model. It joins a writer thread and re-raises the
  thread's panic.
- src/lib.rs is not part of this model. It holds module declarations and re-exports.
- The file I/O of `transform` is left out: opening the input, reading metadata and
  column chunks, creating the output, and the trailing `unimplemented!`. Only the schema
  derivation and the per-op lookup are modelled.
- Split closures are caller code. A split is modelled by its declared outputs only.
- The `info!` log line in `flush` is left out, along with its three divisions (two by
  1024 and one by the row count). All three sit after the zero-row early return.
- `Packer::table` is left out because it is only an accessor.
- `Packer::find_field` is left out because it forwards to the writer's field lookup,
  which is the same first-match search as `Repack.FindField`.
- `VarArray`'s boxing, `as_arc` and downcasts are replaced by the tagged union.
  A failed downcast is the kind mismatch error.
- `Tables.PushPrimitive`: only the three native types some kind uses are modelled.
  At any other type every push fails with a kind mismatch and changes nothing.
- F64 values are opaque 64-bit patterns. Floating-point arithmetic is never performed.
- `Tables.PushStr`: an overflowing push is modelled as leaving the string builder's cells
  unchanged. Any partial buffer state inside the external library is not modelled.
- Integers are unbounded. A `usize` overflow of the running estimate cannot occur.
- `Mem.ColumnMem` derives buffer lengths from the cells under three layout assumptions
  about the external builders:
  - a validity bitmap exists once a null is pushed, with one bit per cell;
  - a string builder has one more offset than cells;
  - the values buffer is the concatenated bytes.
  Reserved but unused capacity is not counted.
- A table over an empty schema is excluded by `requires`. The source indexes column 0
  and would panic.
- Tables.PushNull: the column index is required to be in range. In the source an
  out-of-range index panics when it indexes `builders[i]`.
- Tables.PushStr: the column index is required to be in range. In the source an
  out-of-range index panics when it indexes `builders[i]`.
- Tables.PushBool: the column index is required to be in range. In the source an
  out-of-range index panics when it indexes `builders[i]`.
- Tables.PushPrimitive: the column index is required to be in range. In the source an
  out-of-range index panics when it indexes `builders[i]`.
- Repack.ResolveInputs: models the lookups of one row group only. The source repeats them
  once per row group, makes none when the file has no row groups, and reads each op's
  column, which can fail, before the next op's lookup.
- Get-by-index views of the table are not modelled. They are not in the code.

## Findings

| source | as written | input that shows it | evidently intended | confidence | as-written member | corrected member |
|---|---|---|---|---|---|---|
| src/packer.rs:39-66 | `flush` returns early when column 0 is empty, before the consistency check, so `finish` succeeds | schema (I64, String), one `push_str(1, Some("a"))`, then `finish`: success with no batch, and the string is lost | `finish` fails on an inconsistent remainder instead of dropping it | not executed; medium | Packing.FinishDropsUnevenRemainder | Packing.FinishChecked |
