/** The flush policy (src/packer.rs): a table plus a writer that receives finished
    batches. The writer is represented only by the list of batches submitted to it, in
    submission order; encoding them is not part of this model. */
module Packing {
  import opened Wrappers
  import opened Columns
  import opened Tables
  import Arrow
  import Mem

  /** Flush once the estimate exceeds 512 MiB ... */
  const MemLimit: nat := 512 * 1024 * 1024

  /** ... or the table holds more than this many rows. */
  const RowLimit: nat := 100_000

  datatype Packer = Packer(table: Table, written: seq<Batch>)

  /** A submitted batch: one non-empty column per schema entry, of the declared kinds and
      all of the same length. */
  predicate BatchFits(b: Batch, schema: seq<Kind>)
  {
    && |b| == |schema|
    && |b| > 0
    && b[0].Len() > 0
    && forall i :: 0 <= i < |b| ==> b[i].KindOf() == schema[i] && b[i].Len() == b[0].Len()
  }

  /** The table is well formed over a non-empty schema (its row count indexes column 0),
      and every batch handed to the writer fits that schema. */
  predicate Valid(p: Packer)
  {
    && Tables.Valid(p.table)
    && |p.table.schema| > 0
    && forall j :: 0 <= j < |p.written| ==> BatchFits(p.written[j], p.table.schema)
  }

  function KindsOf(fields: seq<TableField>): (kinds: seq<Kind>)
    ensures |kinds| == |fields|
    ensures forall i :: 0 <= i < |fields| ==> kinds[i] == fields[i].kind
  {
    seq(|fields|, i requires 0 <= i < |fields| => fields[i].kind)
  }

  /** `Packer::new`: an empty table of the fields' kinds, in order, with capacity 0, and a
      writer that has received nothing. */
  function New(fields: seq<TableField>): (p: Packer)
    ensures p.table.schema == KindsOf(fields)
    ensures Tables.Valid(p.table) && p.table.cap == 0
    ensures AllEmpty(p.table.columns) && MemEstimate(p.table) == 0
    ensures p.written == []
    ensures |fields| > 0 ==> Valid(p)
  {
    Packer(WithCapacity(KindsOf(fields), 0), [])
  }

  /** `q` is `p` after one flush: the writer received exactly `p`'s columns as one more
      batch, and the table is back to empty with the same schema and capacity. */
  predicate Flushed(p: Packer, q: Packer)
    requires Valid(p)
  {
    && q.written == p.written + [p.table.columns]
    && q.table.schema == p.table.schema
    && q.table.cap == p.table.cap
    && Tables.Valid(q.table)
    && AllEmpty(q.table.columns)
    && MemEstimate(q.table) == 0
  }

  /** `flush`: a table with no rows is left alone and nothing is submitted; otherwise the
      bulk push is finished (which checks consistency) and the batch is taken and submitted. */
  function Flush(p: Packer): (r: Step<Packer, TableError>)
    requires Valid(p)
    ensures Valid(r.state) && r.state.table.schema == p.table.schema
    ensures Rows(p.table) == 0 ==> r == Step(p, Pass)
    ensures Rows(p.table) > 0 ==> (r.outcome.Pass? <==> Consistent(p.table.columns))
    ensures Rows(p.table) > 0 && r.outcome.Pass? ==> Flushed(p, r.state)
    ensures r.outcome.Fail? ==> r.state == p
  {
    if Rows(p.table) == 0 then Step(p, Pass)
    else
      match FinishBulkPush(p.table)
      case Step(_, Fail(e)) => Step(p, Fail(e))
      case Step(finished, Pass) =>
        var (batch, emptied) := TakeBatch(finished);
        Step(Packer(emptied, p.written + [batch]), Pass)
  }

  /** The thresholds: strictly above 512 MiB, or strictly above 100,000 rows. */
  predicate OverThreshold(t: Table)
    requires |t.columns| > 0
  {
    MemEstimate(t) > MemLimit || Rows(t) > RowLimit
  }

  /** `consider_flushing`: an inconsistent table is an error and nothing is submitted;
      a consistent table is flushed exactly when it is over a threshold and holds rows. */
  function ConsiderFlushing(p: Packer): (r: Step<Packer, TableError>)
    requires Valid(p)
    ensures Valid(r.state) && r.state.table.schema == p.table.schema
    ensures r.outcome.Pass? <==> Consistent(p.table.columns)
    ensures r.outcome.Fail? ==> r.state == p && r.outcome == CheckConsistent(p.table)
    ensures r.outcome.Pass? && OverThreshold(p.table) && Rows(p.table) > 0 ==> Flushed(p, r.state)
    ensures r.outcome.Pass? && !(OverThreshold(p.table) && Rows(p.table) > 0) ==> r.state == p
  {
    match CheckConsistent(p.table)
    case Fail(e) => Step(p, Fail(e))
    case Pass =>
      if OverThreshold(p.table) then Flush(p) else Step(p, Pass)
  }

  /** `finish`: flushes whatever remains and hands back everything the writer received. */
  function Finish(p: Packer): (r: Result<seq<Batch>, TableError>)
    requires Valid(p)
    ensures Rows(p.table) == 0 ==> r == Ok(p.written)
    ensures Rows(p.table) > 0 ==> (r.Ok? <==> Consistent(p.table.columns))
    ensures Rows(p.table) > 0 && r.Ok? ==> r.value == p.written + [p.table.columns]
    ensures r.Ok? ==> forall j :: 0 <= j < |r.value| ==> BatchFits(r.value[j], p.table.schema)
  {
    var s := Flush(p);
    if s.outcome.Fail? then Err(s.outcome.error) else Ok(s.state.written)
  }

  /** What the driver does to a packer: push into its table, finish a row, finish a bulk
      push, or ask whether to flush. */
  datatype Event =
    | Pushed(push: Push)
    | RowFinished
    | BulkFinished
    | FlushConsidered

  predicate EventsInRange(evs: seq<Event>, width: nat)
  {
    forall j :: 0 <= j < |evs| ==> evs[j].Pushed? ==> evs[j].push.col < width
  }

  /** The pushes among the events, in order. */
  function PushesOf(evs: seq<Event>): (ps: seq<Push>)
    ensures forall j :: 0 <= j < |ps| ==> exists i :: 0 <= i < |evs| && evs[i] == Pushed(ps[j])
  {
    if |evs| == 0 then []
    else (if evs[0].Pushed? then [evs[0].push] else []) + PushesOf(evs[1..])
  }

  function StepEvent(p: Packer, e: Event): (r: Step<Packer, TableError>)
    requires Valid(p)
    requires e.Pushed? ==> e.push.col < |p.table.schema|
    ensures Valid(r.state) && r.state.table.schema == p.table.schema
    ensures |p.written| <= |r.state.written| && r.state.written[..|p.written|] == p.written
  {
    match e
    case Pushed(push) =>
      var s := ApplyPush(p.table, push);
      Step(p.(table := s.state), s.outcome)
    case RowFinished =>
      var s := FinishRow(p.table);
      Step(p.(table := s.state), s.outcome)
    case BulkFinished =>
      var s := FinishBulkPush(p.table);
      Step(p.(table := s.state), s.outcome)
    case FlushConsidered =>
      ConsiderFlushing(p)
  }

  /** Runs the events in order, stopping at the first error. Batches already submitted are
      never taken back or reordered: the writer's list only grows at its end. */
  function Run(p: Packer, evs: seq<Event>): (r: Step<Packer, TableError>)
    requires Valid(p) && EventsInRange(evs, |p.table.schema|)
    ensures Valid(r.state) && r.state.table.schema == p.table.schema
    ensures |p.written| <= |r.state.written| && r.state.written[..|p.written|] == p.written
    decreases |evs|
  {
    if |evs| == 0 then Step(p, Pass)
    else
      var s := StepEvent(p, evs[0]);
      if s.outcome.Fail? then s else Run(s.state, evs[1..])
  }

  /** Column `k` of every batch, concatenated in submission order. */
  function Flatten(bs: seq<Batch>, k: nat): seq<Option<Value>>
    requires forall j :: 0 <= j < |bs| ==> k < |bs[j]|
  {
    if |bs| == 0 then []
    else Flatten(bs[..|bs| - 1], k) + bs[|bs| - 1][k].Cells()
  }

  lemma FlattenAppend(bs: seq<Batch>, b: Batch, k: nat)
    requires forall j :: 0 <= j < |bs| ==> k < |bs[j]|
    requires k < |b|
    ensures Flatten(bs + [b], k) == Flatten(bs, k) + b[k].Cells()
  {
    assert (bs + [b])[..|bs|] == bs;
  }

  /** Everything column `k` has ever received and not lost: what was submitted, then what
      is still in the table. */
  function Stored(p: Packer, k: nat): seq<Option<Value>>
    requires Valid(p) && k < |p.table.schema|
  {
    Flatten(p.written, k) + p.table.columns[k].Cells()
  }

  /** A single event's pushes: its own push, if it is one. */
  lemma PushesOfOne(e: Event)
    ensures PushesOf([e]) == if e.Pushed? then [e.push] else []
  {
    assert PushesOf([e]) == (if e.Pushed? then [e.push] else []) + PushesOf([]);
  }

  lemma PushedCellsOne(push: Push, k: nat)
    ensures PushedCells([push], k) == if push.col == k then [push.Cell()] else []
  {
    assert PushedCells([push], k) == (if push.col == k then [push.Cell()] else []) + PushedCells([], k);
  }

  /** A successful push adds its cell to its own column and nothing elsewhere. */
  lemma PushedEventConserves(p: Packer, push: Push, k: nat)
    requires Valid(p) && k < |p.table.schema| && push.col < |p.table.schema|
    requires StepEvent(p, Pushed(push)).outcome.Pass?
    ensures Stored(StepEvent(p, Pushed(push)).state, k) == Stored(p, k) + PushedCells(PushesOf([Pushed(push)]), k)
  {
    PushesOfOne(Pushed(push));
    PushedCellsOne(push, k);
  }

  /** Asking whether to flush moves cells from the table to the writer, never adds or drops any. */
  lemma ConsideredEventConserves(p: Packer, k: nat)
    requires Valid(p) && k < |p.table.schema|
    requires ConsiderFlushing(p).outcome.Pass?
    ensures Stored(ConsiderFlushing(p).state, k) == Stored(p, k)
  {
    if OverThreshold(p.table) && Rows(p.table) > 0 {
      FlattenAppend(p.written, p.table.columns, k);
    }
  }

  /** One successful event adds to column `k` exactly the cell it pushed there, if any. */
  lemma StepEventConserves(p: Packer, e: Event, k: nat)
    requires Valid(p) && k < |p.table.schema|
    requires e.Pushed? ==> e.push.col < |p.table.schema|
    requires StepEvent(p, e).outcome.Pass?
    ensures Stored(StepEvent(p, e).state, k) == Stored(p, k) + PushedCells(PushesOf([e]), k)
  {
    PushesOfOne(e);
    match e
    case Pushed(push) => PushedEventConserves(p, push, k);
    case RowFinished =>
    case BulkFinished =>
    case FlushConsidered => ConsideredEventConserves(p, k);
  }

  lemma PushesOfCons(evs: seq<Event>)
    requires |evs| > 0
    ensures PushesOf(evs) == PushesOf([evs[0]]) + PushesOf(evs[1..])
  {
    var head := if evs[0].Pushed? then [evs[0].push] else [];
    assert PushesOf(evs) == head + PushesOf(evs[1..]);
    assert [evs[0]][1..] == [];
    assert PushesOf([evs[0]]) == head + PushesOf([]);
    assert head + [] == head;
  }

  lemma {:induction false} PushedCellsAppend(a: seq<Push>, b: seq<Push>, k: nat)
    ensures PushedCells(a + b, k) == PushedCells(a, k) + PushedCells(b, k)
    decreases |a|
  {
    if |a| == 0 {
      assert a + b == b;
    } else {
      assert (a + b)[1..] == a[1..] + b;
      PushedCellsAppend(a[1..], b, k);
    }
  }

  /** A run that passes passed its first event and then the rest. */
  lemma RunUnfold(p: Packer, evs: seq<Event>)
    requires Valid(p) && EventsInRange(evs, |p.table.schema|) && |evs| > 0
    requires Run(p, evs).outcome.Pass?
    ensures StepEvent(p, evs[0]).outcome.Pass?
    ensures EventsInRange(evs[1..], |p.table.schema|)
    ensures Run(p, evs) == Run(StepEvent(p, evs[0]).state, evs[1..])
  {
    forall j | 0 <= j < |evs| - 1
      ensures evs[1..][j].Pushed? ==> evs[1..][j].push.col < |p.table.schema|
    {
      assert evs[1..][j] == evs[j + 1];
    }
  }

  /** The cells of the first event's push followed by the rest's are the cells of all. */
  lemma PushedCellsCons(evs: seq<Event>, k: nat)
    requires |evs| > 0
    ensures PushedCells(PushesOf(evs), k) == PushedCells(PushesOf([evs[0]]), k) + PushedCells(PushesOf(evs[1..]), k)
  {
    PushesOfCons(evs);
    PushedCellsAppend(PushesOf([evs[0]]), PushesOf(evs[1..]), k);
  }

  lemma Chain<T>(before: seq<T>, mid: seq<T>, now: seq<T>, first: seq<T>, later: seq<T>)
    requires mid == before + first && now == mid + later
    ensures now == before + (first + later)
  {
  }

  /** A successful run adds to every column exactly the cells pushed to it, in order,
      whether they now sit in submitted batches or still in the table. */
  lemma {:induction false} RunConserves(p: Packer, evs: seq<Event>, k: nat)
    requires Valid(p) && EventsInRange(evs, |p.table.schema|) && k < |p.table.schema|
    ensures Run(p, evs).outcome.Pass? ==>
              Stored(Run(p, evs).state, k) == Stored(p, k) + PushedCells(PushesOf(evs), k)
    decreases |evs|
  {
    if |evs| > 0 && Run(p, evs).outcome.Pass? {
      RunUnfold(p, evs);
      var mid := StepEvent(p, evs[0]).state;
      StepEventConserves(p, evs[0], k);
      RunConserves(mid, evs[1..], k);
      PushedCellsCons(evs, k);
      Chain(Stored(p, k), Stored(mid, k), Stored(Run(p, evs).state, k),
            PushedCells(PushesOf([evs[0]]), k), PushedCells(PushesOf(evs[1..]), k));
    }
  }

  /** `finish` with the consistency check the remainder evidently needs: a table whose
      column 0 is empty while another column holds cells is an error, not a quiet success. */
  function FinishChecked(p: Packer): (r: Result<seq<Batch>, TableError>)
    requires Valid(p)
    ensures r.Ok? <==> Consistent(p.table.columns)
    ensures r.Err? ==> r.error == CheckConsistent(p.table).error
    ensures r.Ok? && Rows(p.table) == 0 ==> r.value == p.written
    ensures r.Ok? && Rows(p.table) > 0 ==> r.value == p.written + [p.table.columns]
  {
    match CheckConsistent(p.table)
    case Fail(e) => Err(e)
    case Pass => Finish(p)
  }

  /** An (I64, String) table ... */
  const UnevenFields := [TableField("id", I64, false, Arrow.Plain), TableField("name", String, false, Arrow.Plain)]

  /** ... into whose second column one string is pushed, and nothing into the first. */
  const UnevenEvents := [Pushed(StrPush(1, Some([0x61])))]

  lemma UnevenRun()
    ensures EventsInRange(UnevenEvents, |UnevenFields|)
    ensures Run(New(UnevenFields), UnevenEvents).outcome.Pass?
    ensures Run(New(UnevenFields), UnevenEvents).state.written == []
    ensures Rows(Run(New(UnevenFields), UnevenEvents).state.table) == 0
  {
    var p0 := New(UnevenFields);
    assert p0.table.columns[1].Utf8Column? && p0.table.columns[1].Cells() == [];
    assert Mem.ValueBytes(p0.table.columns[1].strs) == 0;
    assert p0.table.columns[0].Cells() == [];
    var push := StrPush(1, Some([0x61]));
    var t := ApplyPush(p0.table, push);
    assert t.outcome.Pass?;
    assert t.state.columns[0] == p0.table.columns[0];
    var s := StepEvent(p0, Pushed(push));
    assert s == Step(p0.(table := t.state), Pass);
    assert Run(p0, UnevenEvents) == Run(s.state, []);
  }

  /** As written, `finish` can succeed while cells are lost: with an empty column 0 the
      flush returns early without checking the other columns, so the string pushed into
      column 1 never reaches the writer and no error is raised. */
  lemma FinishDropsUnevenRemainder()
    ensures EventsInRange(UnevenEvents, |UnevenFields|)
    ensures Run(New(UnevenFields), UnevenEvents).outcome.Pass?
    ensures Finish(Run(New(UnevenFields), UnevenEvents).state) == Ok([])
    ensures PushedCells(PushesOf(UnevenEvents), 1) == [Some(Utf8Value([0x61]))]
  {
    UnevenRun();
    PushesOfOne(UnevenEvents[0]);
    PushedCellsOne(StrPush(1, Some([0x61])), 1);
  }

  /** A checked finish hands the writer everything column `k` still held. */
  lemma FinishCheckedFlattens(p: Packer, k: nat)
    requires Valid(p) && k < |p.table.schema|
    requires FinishChecked(p).Ok?
    ensures forall j :: 0 <= j < |FinishChecked(p).value| ==> k < |FinishChecked(p).value[j]|
    ensures Flatten(FinishChecked(p).value, k) == Stored(p, k)
  {
    if Rows(p.table) > 0 {
      FlattenAppend(p.written, p.table.columns, k);
    } else {
      assert p.table.columns[k].Len() == 0;
    }
  }

  /** A fresh packer has stored nothing in any column. */
  lemma NewStoresNothing(fields: seq<TableField>, k: nat)
    requires 0 <= k < |fields|
    ensures Valid(New(fields)) && Stored(New(fields), k) == []
  {
    assert New(fields).table.columns[k].Cells() == [];
  }

  /** End to end, with the checked `finish`: starting from `Packer::new`, if the driver's
      events all succeed and finishing succeeds, the batches the writer received hold,
      column by column and in order, exactly the cells pushed (none lost, none duplicated),
      and none of them is empty. */
  lemma FinishDeliversEveryRow(fields: seq<TableField>, evs: seq<Event>)
    requires |fields| > 0 && EventsInRange(evs, |fields|)
    requires Run(New(fields), evs).outcome.Pass?
    ensures var r := FinishChecked(Run(New(fields), evs).state);
      r.Ok? ==>
        && (forall j :: 0 <= j < |r.value| ==> BatchFits(r.value[j], KindsOf(fields)))
        && forall k :: 0 <= k < |fields| ==> Flatten(r.value, k) == PushedCells(PushesOf(evs), k)
  {
    var p := Run(New(fields), evs).state;
    if FinishChecked(p).Ok? {
      forall k | 0 <= k < |fields|
        ensures Flatten(FinishChecked(p).value, k) == PushedCells(PushesOf(evs), k)
      {
        NewStoresNothing(fields, k);
        RunConserves(New(fields), evs, k);
        FinishCheckedFlattens(p, k);
      }
    }
  }

  lemma {:induction false} NoPushEvents(evs: seq<Event>)
    requires PushesOf(evs) == []
    ensures forall j :: 0 <= j < |evs| ==> !evs[j].Pushed?
    decreases |evs|
  {
    if |evs| > 0 {
      NoPushEvents(evs[1..]);
      forall j | 1 <= j < |evs| ensures !evs[j].Pushed? {
        assert evs[j] == evs[1..][j - 1];
      }
    }
  }

  /** Without pushes the table stays empty, so no event fails and nothing is submitted. */
  lemma {:induction false} RunWithoutPushes(p: Packer, evs: seq<Event>)
    requires Valid(p) && AllEmpty(p.table.columns)
    requires forall j :: 0 <= j < |evs| ==> !evs[j].Pushed?
    ensures EventsInRange(evs, |p.table.schema|)
    ensures Run(p, evs).outcome.Pass?
    ensures Run(p, evs).state.written == p.written
    ensures AllEmpty(Run(p, evs).state.table.columns)
    decreases |evs|
  {
    if |evs| > 0 {
      assert Consistent(p.table.columns) by {
        forall i, j | 0 <= i < |p.table.columns| && 0 <= j < |p.table.columns|
          ensures p.table.columns[i].Len() == p.table.columns[j].Len()
        {
          assert p.table.columns[i].Cells() == [] && p.table.columns[j].Cells() == [];
        }
      }
      var s := StepEvent(p, evs[0]);
      RunWithoutPushes(s.state, evs[1..]);
    }
  }

  /** A packer that is never pushed to submits no batch: finishing, as written or checked,
      hands back an empty list. */
  lemma NoPushesNoBatches(fields: seq<TableField>, evs: seq<Event>)
    requires |fields| > 0
    requires PushesOf(evs) == []
    ensures EventsInRange(evs, |fields|)
    ensures Run(New(fields), evs).outcome.Pass?
    ensures Finish(Run(New(fields), evs).state) == Ok([])
    ensures FinishChecked(Run(New(fields), evs).state) == Ok([])
  {
    NoPushEvents(evs);
    RunWithoutPushes(New(fields), evs);
    var p := Run(New(fields), evs).state;
    assert Consistent(p.table.columns) by {
      forall i, j | 0 <= i < |p.table.columns| && 0 <= j < |p.table.columns|
        ensures p.table.columns[i].Len() == p.table.columns[j].Len()
      {
        assert p.table.columns[i].Cells() == [] && p.table.columns[j].Cells() == [];
      }
    }
    assert p.table.columns[0].Cells() == [];
  }
}
