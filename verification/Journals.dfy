/** The three execution journals: one rewrites the rows of its run at every record, two
    buffer outcomes in a dictionary and put the rows together at the end. */
module Journals {
  import opened Wrappers

  datatype Row = Row(rowId: string, outcome: string)

  datatype Status = Running | Completed | Stopped

  datatype ExecutionRun = ExecutionRun(projectId: string, runId: string, status: Status, rows: seq<Row>)

  // ---------- What both kinds compute ----------

  /** `{item.row_id: item for item in rows}`: the last row of an id wins. */
  function ById(rows: seq<Row>): (m: map<string, Row>)
    ensures forall r :: r in rows ==> r.rowId in m
  {
    if rows == [] then map[]
    else ById(rows[..|rows| - 1])[rows[|rows| - 1].rowId := rows[|rows| - 1]]
  }

  /** `self._replace`: eager rewriting of the rows. */
  function Replaced(rows: seq<Row>, changed: seq<Row>): (r: seq<Row>)
    ensures |r| == |rows|
  {
    var byId := ById(changed);
    seq(|rows|, i requires 0 <= i < |rows| => if rows[i].rowId in byId then byId[rows[i].rowId] else rows[i])
  }

  /** The rows put together from the buffer at the end. */
  function Materialised(rows: seq<Row>, buffer: map<string, Row>): seq<Row>
    requires forall r :: r in rows ==> r.rowId in buffer
  {
    seq(|rows|, i requires 0 <= i < |rows| => buffer[rows[i].rowId])
  }

  function EagerRows(rows: seq<Row>, batches: seq<seq<Row>>): (r: seq<Row>)
    ensures |r| == |rows|
  {
    if batches == [] then rows
    else Replaced(EagerRows(rows, batches[..|batches| - 1]), batches[|batches| - 1])
  }

  function Buffered(rows: seq<Row>, batches: seq<seq<Row>>): (m: map<string, Row>)
    ensures forall r :: r in rows ==> r.rowId in m
  {
    if batches == [] then ById(rows)
    else Buffered(rows, batches[..|batches| - 1]) + ById(batches[|batches| - 1])
  }

  function LateRows(rows: seq<Row>, batches: seq<seq<Row>>): seq<Row> {
    Materialised(rows, Buffered(rows, batches))
  }

  // ---------- When they agree ----------

  ghost predicate Touched(batches: seq<seq<Row>>, id: string) {
    exists b :: b in batches && id in ById(b)
  }

  /** Rows that share an id are equal, or some batch records that id. */
  ghost predicate SharedIdsSettled(rows: seq<Row>, batches: seq<seq<Row>>) {
    forall i, j :: 0 <= i < j < |rows| && rows[i].rowId == rows[j].rowId ==>
      rows[i] == rows[j] || Touched(batches, rows[i].rowId)
  }

  ghost predicate DistinctIds(rows: seq<Row>) {
    forall i, j :: 0 <= i < j < |rows| ==> rows[i].rowId != rows[j].rowId
  }

  /** The journals finish with the same rows exactly when every id that several rows share is
      settled; with distinct row ids they always do. */
  lemma JournalsAgree(rows: seq<Row>, batches: seq<seq<Row>>)
    ensures EagerRows(rows, batches) == LateRows(rows, batches) <==> SharedIdsSettled(rows, batches)
    ensures DistinctIds(rows) ==> EagerRows(rows, batches) == LateRows(rows, batches)
  {
    forall i | 0 <= i < |rows|
      ensures EagerRows(rows, batches)[i] == LateRows(rows, batches)[i]
        <==> Touched(batches, rows[i].rowId) || rows[i] == ById(rows)[rows[i].rowId]
    {
      RowAgrees(rows, batches, i);
    }
    if SharedIdsSettled(rows, batches) {
      forall i | 0 <= i < |rows| ensures EagerRows(rows, batches)[i] == LateRows(rows, batches)[i] {
        LastOfId(rows, i);
      }
    }
    if EagerRows(rows, batches) == LateRows(rows, batches) {
      forall i, j | 0 <= i < j < |rows| && rows[i].rowId == rows[j].rowId
        ensures rows[i] == rows[j] || Touched(batches, rows[i].rowId)
      {
        assert EagerRows(rows, batches)[i] == LateRows(rows, batches)[i];
        assert EagerRows(rows, batches)[j] == LateRows(rows, batches)[j];
      }
    }
  }

  /** Two unrecorded rows with one id: the eager journal keeps both, the late ones lose the first. */
  lemma JournalsCanDiffer()
    ensures var rows := [Row("r1", "first"), Row("r1", "second")];
      EagerRows(rows, []) == rows && LateRows(rows, []) == [Row("r1", "second"), Row("r1", "second")]
  {
    var rows := [Row("r1", "first"), Row("r1", "second")];
    LastOfId(rows, 0);
    LastOfId(rows, 1);
    var k :| 0 <= k < 2 && rows[k].rowId == "r1" && ById(rows)["r1"] == rows[k];
    assert ById(rows)["r1"] == rows[1];
    assert LateRows(rows, [])[0] == rows[1] && LateRows(rows, [])[1] == rows[1];
  }

  lemma {:induction false} LastOfId(rows: seq<Row>, i: nat)
    requires i < |rows|
    ensures exists k :: i <= k < |rows| && rows[k].rowId == rows[i].rowId && ById(rows)[rows[i].rowId] == rows[k]
  {
    var n := |rows| - 1;
    if rows[n].rowId != rows[i].rowId {
      LastOfId(rows[..n], i);
      var k :| i <= k < n && rows[..n][k].rowId == rows[i].rowId && ById(rows[..n])[rows[i].rowId] == rows[..n][k];
      assert rows[k] == rows[..n][k];
    }
  }

  /** The last record of an id is what either journal keeps for it; an id no batch records
      keeps its own row in the one and the last row of its id in the other. */
  lemma {:induction false} RowAgrees(rows: seq<Row>, batches: seq<seq<Row>>, i: nat)
    requires i < |rows|
    ensures rows[i].rowId in Buffered(rows, batches)
    ensures Touched(batches, rows[i].rowId) ==> EagerRows(rows, batches)[i] == Buffered(rows, batches)[rows[i].rowId]
    ensures !Touched(batches, rows[i].rowId) ==>
      EagerRows(rows, batches)[i] == rows[i] && Buffered(rows, batches)[rows[i].rowId] == ById(rows)[rows[i].rowId]
    ensures EagerRows(rows, batches)[i].rowId == rows[i].rowId
  {
    if batches != [] {
      var n := |batches| - 1;
      RowAgrees(rows, batches[..n], i);
      IdKept(batches[n]);
      assert forall b :: b in batches <==> b in batches[..n] || b == batches[n];
    }
  }

  lemma {:induction false} IdKept(rows: seq<Row>)
    ensures forall id :: id in ById(rows) ==> ById(rows)[id].rowId == id
  {
    if rows != [] { IdKept(rows[..|rows| - 1]); }
  }

  ghost predicate SameIds(a: seq<Row>, b: seq<Row>) {
    |a| == |b| && forall i :: 0 <= i < |a| ==> a[i].rowId == b[i].rowId
  }

  /** Each of the rows that shares its id with changed ones is the last of these. */
  ghost predicate BringsNothingNew(rows: seq<Row>, changed: seq<Row>) {
    forall i, k :: 0 <= i < |rows| && LastOf(changed, k) && changed[k].rowId == rows[i].rowId ==> changed[k] == rows[i]
  }

  /** The changed row `k` is the last with its id. */
  ghost predicate LastOf(changed: seq<Row>, k: int) {
    0 <= k < |changed| && forall j :: k < j < |changed| ==> changed[j].rowId != changed[k].rowId
  }

  lemma {:induction false} LastWins(changed: seq<Row>, id: string)
    ensures id in ById(changed) ==>
      exists k :: LastOf(changed, k) && changed[k].rowId == id && ById(changed)[id] == changed[k]
    ensures forall k :: LastOf(changed, k) && changed[k].rowId == id ==>
      id in ById(changed) && ById(changed)[id] == changed[k]
  {
    if changed != [] {
      var n := |changed| - 1;
      var earlier := changed[..n];
      LastWins(earlier, id);
      if changed[n].rowId == id {
        assert LastOf(changed, n);
      } else {
        forall k | LastOf(changed, k) && changed[k].rowId == id ensures LastOf(earlier, k) {
          assert forall j :: k < j < n ==> earlier[j] == changed[j];
        }
        if id in ById(earlier) {
          var k :| LastOf(earlier, k) && earlier[k].rowId == id && ById(earlier)[id] == earlier[k];
          forall j | k < j < |changed| ensures changed[j].rowId != id { assert j < n ==> changed[j] == earlier[j]; }
          assert LastOf(changed, k);
        }
      }
    }
  }

  /** One more batch leaves the late rows as they were exactly if it brings nothing new. */
  lemma LateAfterOne(started: seq<Row>, rows: seq<Row>, batches: seq<seq<Row>>)
    requires batches != [] && rows == LateRows(started, batches[..|batches| - 1]) && SameIds(rows, started)
    ensures rows == LateRows(started, batches) <==> BringsNothingNew(rows, batches[|batches| - 1])
  {
    var changed := batches[|batches| - 1];
    forall i | 0 <= i < |rows|
      ensures LateRows(started, batches)[i] == rows[i] <==>
        forall k :: LastOf(changed, k) && changed[k].rowId == rows[i].rowId ==> changed[k] == rows[i]
    {
      LastWins(changed, rows[i].rowId);
      assert LateRows(started, batches)[i] ==
        if rows[i].rowId in ById(changed) then ById(changed)[rows[i].rowId] else rows[i];
    }
    if BringsNothingNew(rows, changed) {
      assert forall i :: 0 <= i < |rows| ==> LateRows(started, batches)[i] == rows[i];
    } else {
      var i, k :| 0 <= i < |rows| && LastOf(changed, k) && changed[k].rowId == rows[i].rowId && changed[k] != rows[i];
      assert LateRows(started, batches)[i] != rows[i];
    }
  }

  /** What a row of a finished run is: the last that any batch brings for its id, or the row the
      run was started with. */
  lemma {:induction false} EagerRowIsLatest(rows: seq<Row>, batches: seq<seq<Row>>, i: nat)
    requires i < |rows|
    ensures forall n, k :: Latest(batches, rows[i].rowId, n, k) ==> EagerRows(rows, batches)[i] == batches[n][k]
    ensures NoneAfter(batches, -1, rows[i].rowId) ==> EagerRows(rows, batches)[i] == rows[i]
    ensures EagerRows(rows, batches)[i].rowId == rows[i].rowId
  {
    hide *;
    EagerStep(rows, batches, i);
    if batches != [] {
      var m := |batches| - 1;
      EagerRowIsLatest(rows, batches[..m], i);
      LatestStep(batches, rows[i].rowId);
      IdKept(batches[m]);
    }
  }

  lemma EagerStep(rows: seq<Row>, batches: seq<seq<Row>>, i: nat)
    requires i < |rows|
    ensures batches == [] ==> EagerRows(rows, batches) == rows && forall id, n, k :: !Latest(batches, id, n, k)
    ensures batches != [] ==>
      var byId, earlier := ById(batches[|batches| - 1]), EagerRows(rows, batches[..|batches| - 1])[i];
      EagerRows(rows, batches)[i] == if earlier.rowId in byId then byId[earlier.rowId] else earlier
  {
  }

  /** The last row with this id is row `k` of batch `n`. */
  ghost predicate Latest(batches: seq<seq<Row>>, id: string, n: int, k: int) {
    0 <= n < |batches| && LastOf(batches[n], k) && batches[n][k].rowId == id && NoneAfter(batches, n, id)
  }

  lemma LatestStep(batches: seq<seq<Row>>, id: string)
    requires batches != []
    ensures var m := |batches| - 1;
      && (forall n, k :: Latest(batches, id, n, k) ==>
            && 0 <= n <= m
            && (n == m ==> id in ById(batches[m]) && ById(batches[m])[id] == batches[m][k])
            && (n < m ==> id !in ById(batches[m]) && batches[..m][n] == batches[n] && Latest(batches[..m], id, n, k)))
      && (NoneAfter(batches, -1, id) ==> NoneAfter(batches[..m], -1, id) && id !in ById(batches[m]))
  {
    var m := |batches| - 1;
    LastWins(batches[m], id);
    forall n | -1 <= n < m && NoneAfter(batches, n, id)
      ensures NoneAfter(batches[..m], n, id) && id !in ById(batches[m])
    {
      assert forall b :: 0 <= b < m ==> batches[..m][b] == batches[b];
    }
  }

  /** No batch after number `n` has a row with this id. */
  ghost predicate NoneAfter(batches: seq<seq<Row>>, n: int, id: string) {
    forall b, k :: n < b < |batches| && 0 <= b && 0 <= k < |batches[b]| ==> batches[b][k].rowId != id
  }

  // ---------- `qualify_completed_load_correction._Journal` ----------

  class EagerJournal {
    var run: Option<ExecutionRun>
    ghost var started: seq<Row>
    ghost var batches: seq<seq<Row>>

    ghost predicate Valid()
      reads this
    {
      run.Some? ==> run.value.rows == EagerRows(started, batches)
    }

    constructor ()
      ensures Valid() && run == None
    {
      run, started, batches := None, [], [];
    }

    method StartRun(newRun: ExecutionRun)
      modifies this
      ensures Valid() && run == Some(newRun) && started == newRun.rows && batches == []
    {
      run, started, batches := Some(newRun), newRun.rows, [];
    }

    method Record(rows: seq<Row>)
      requires Valid() && run.Some?
      modifies this
      ensures Valid() && started == old(started) && batches == old(batches) + [rows]
      ensures run == Some(old(run).value.(rows := EagerRows(started, batches)))
    {
      batches := batches + [rows];
      assert batches[..|batches| - 1] == old(batches);
      run := Some(run.value.(rows := Replaced(run.value.rows, rows)));
    }

    method FinishRun(status: Status) returns (r: ExecutionRun)
      requires Valid() && run.Some?
      modifies this`run
      ensures Valid() && run == Some(r) && r == old(run).value.(status := status, rows := EagerRows(started, batches))
    {
      r := run.value.(status := status);
      run := Some(r);
    }
  }

  // ---------- `benchmark_dependency_execution._Journal` ----------

  class BenchmarkJournal {
    var run: Option<ExecutionRun>
    var rows: map<string, Row>
    ghost var started: seq<Row>
    ghost var batches: seq<seq<Row>>

    ghost predicate Valid()
      reads this
    {
      && rows == Buffered(started, batches)
      && (run.Some? ==> SameIds(run.value.rows, started))
    }

    /** A run that readers can see carries the latest outcome of every row. */
    ghost predicate UpToDate()
      reads this
    {
      run.Some? && run.value.status != Running ==> run.value.rows == LateRows(started, batches)
    }

    constructor ()
      ensures Valid() && UpToDate() && run == None
    {
      run, rows, started, batches := None, map[], [], [];
    }

    method GetCurrentRun() returns (r: Option<ExecutionRun>)
      ensures r == if run.Some? && run.value.status != Running then run else None
      ensures UpToDate() && r.Some? ==> r.value.rows == LateRows(started, batches)
    {
      return if run.None? || run.value.status == Running then None else run;
    }

    method StartRun(newRun: ExecutionRun)
      modifies this
      ensures Valid() && run == Some(newRun) && started == newRun.rows && batches == []
      ensures UpToDate() <==> newRun.status == Running || SharedIdsSettled(newRun.rows, [])
    {
      run, rows, started, batches := Some(newRun), ById(newRun.rows), newRun.rows, [];
      JournalsAgree(newRun.rows, []);
    }

    /** A record keeps the reader up to date while the run is running; after that, exactly if
        every row of the run that it names is the row it brings. */
    method Record(changed: seq<Row>)
      requires Valid()
      modifies this`rows, this`batches
      ensures Valid() && batches == old(batches) + [changed]
      ensures run.Some? && run.value.status == Running ==> UpToDate()
      ensures old(UpToDate()) && run.Some? && run.value.status != Running ==>
        (UpToDate() <==> BringsNothingNew(run.value.rows, changed))
    {
      batches := batches + [changed];
      assert batches[..|batches| - 1] == old(batches);
      if run.Some? && run.value.rows == LateRows(started, old(batches)) {
        LateAfterOne(started, run.value.rows, batches);
      }
      rows := rows + ById(changed);
    }

    method FinishRun(status: Status) returns (r: ExecutionRun)
      requires Valid() && run.Some?
      modifies this`run
      ensures Valid() && UpToDate() && run == Some(r)
      ensures r == old(run).value.(status := status, rows := LateRows(started, batches))
    {
      var current := run.value;
      forall i | 0 <= i < |started|
        ensures current.rows[i].rowId in rows && rows[current.rows[i].rowId].rowId == started[i].rowId
      {
        BufferKeepsId(started, batches, started[i]);
      }
      var final := Materialised(current.rows, rows);
      assert final == LateRows(started, batches);
      r := current.(status := status, rows := final);
      run := Some(r);
    }
  }

  lemma {:induction false} BufferKeepsId(rows: seq<Row>, batches: seq<seq<Row>>, row: Row)
    requires row in rows
    ensures row.rowId in Buffered(rows, batches) && Buffered(rows, batches)[row.rowId].rowId == row.rowId
  {
    if batches == [] {
      IdKept(rows);
    } else {
      BufferKeepsId(rows, batches[..|batches| - 1], row);
      IdKept(batches[|batches| - 1]);
    }
  }

  lemma OneRowBuffered(before: Row, after: Row)
    requires before.rowId == after.rowId
    ensures LateRows([before], []) == [before] && LateRows([before], [[after]]) == [after]
    ensures Buffered([before], [[after]]) == map[after.rowId := after]
  {
    assert [before][..0] == [] && [after][..0] == [] && [[after]][..0] == [];
    assert ById([after]) == map[after.rowId := after];
  }

  /** A record after the end of the run: the reader shows the row as it was before. */
  method LateRecordIsNotRead() returns (journal: BenchmarkJournal, read: Option<ExecutionRun>)
    ensures read == Some(ExecutionRun("p", "r", Completed, [Row("r1", "accepted")]))
    ensures journal.rows == map["r1" := Row("r1", "verified")] && !journal.UpToDate()
  {
    hide ById, Buffered, LateRows, SharedIdsSettled, BringsNothingNew, DistinctIds, SameIds;
    var before, after := Row("r1", "accepted"), Row("r1", "verified");
    OneRowBuffered(before, after);
    journal := new BenchmarkJournal();
    journal.StartRun(ExecutionRun("p", "r", Running, [before]));
    var finished := journal.FinishRun(Completed);
    journal.Record([after]);
    assert journal.batches == [[after]];
    read := journal.GetCurrentRun();
  }

  // ---------- `qualify_representative_migration._Journal` ----------

  datatype JournalError = InvalidStart | InvalidOutcome | InvalidFinish

  class RepresentativeJournal {
    var run: Option<ExecutionRun>
    var rows: map<string, Row>
    ghost var started: seq<Row>
    ghost var batches: seq<seq<Row>>

    ghost predicate Valid()
      reads this
    {
      && rows == Buffered(started, batches)
      && (run.Some? ==> SameIds(run.value.rows, started))
    }

    constructor ()
      ensures Valid() && run == None
    {
      run, rows, started, batches := None, map[], [], [];
    }

    predicate Names(projectId: string, runId: string)
      reads this`run
    {
      run.Some? && run.value.projectId == projectId && run.value.runId == runId
    }

    /** Starts one run of the named project, once. */
    method StartRun(projectId: string, newRun: ExecutionRun) returns (r: Result<(), JournalError>)
      requires Valid()
      modifies this
      ensures Valid()
      ensures r == if projectId != newRun.projectId || old(run).Some? then Err(InvalidStart) else Ok(())
      ensures r.Ok? ==> run == Some(newRun) && started == newRun.rows && batches == []
      ensures r.Err? ==> run == old(run) && started == old(started) && batches == old(batches)
    {
      if projectId != newRun.projectId || run.Some? { return Err(InvalidStart); }
      run, rows, started, batches := Some(newRun), ById(newRun.rows), newRun.rows, [];
      return Ok(());
    }

    method Record(projectId: string, runId: string, changed: seq<Row>) returns (r: Result<(), JournalError>)
      requires Valid()
      modifies this`rows, this`batches
      ensures Valid()
      ensures r.Ok? <==> run.Some? && run.value.projectId == projectId && run.value.runId == runId
      ensures r.Err? ==> r.error == InvalidOutcome
      ensures batches == if r.Ok? then old(batches) + [changed] else old(batches)
    {
      if !Names(projectId, runId) { return Err(InvalidOutcome); }
      batches := batches + [changed];
      assert batches[..|batches| - 1] == old(batches);
      rows := rows + ById(changed);
      return Ok(());
    }

    method FinishRun(projectId: string, runId: string, status: Status) returns (r: Result<ExecutionRun, JournalError>)
      requires Valid()
      modifies this`run
      ensures Valid()
      ensures r.Ok? <==> old(run).Some? && old(run).value.projectId == projectId && old(run).value.runId == runId
      ensures r.Err? ==> r.error == InvalidFinish && run == old(run)
      ensures r.Ok? ==> run == Some(r.value)
      ensures r.Ok? ==> r.value == old(run).value.(status := status, rows := LateRows(started, batches))
    {
      if !Names(projectId, runId) { return Err(InvalidFinish); }
      var current := run.value;
      forall i | 0 <= i < |started|
        ensures current.rows[i].rowId in rows && rows[current.rows[i].rowId].rowId == started[i].rowId
      {
        BufferKeepsId(started, batches, started[i]);
      }
      var final := Materialised(current.rows, rows);
      assert final == LateRows(started, batches);
      var finished := current.(status := status, rows := final);
      run := Some(finished);
      return Ok(finished);
    }
  }
}
