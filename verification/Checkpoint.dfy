/** The append-only run log and what a resume makes of it (src/karc/bench/checkpoint.py). */
module Checkpoint {
  import opened Collections
  import opened RunLoop

  datatype RunId = RunId(id: string)

  /** One JSON row; a row without a run id carries None. */
  datatype Row = Row(runId: Option<RunId>, failure: FailureClass)

  /** A line of the log file: empty, unreadable as JSON, or a row. */
  datatype Line = Blank | Torn | Parsed(row: Row)

  datatype Unit = Unit(arm: string, task: string, rep: int)

  predicate IsComplete(failure: FailureClass) {
    failure.Ok? || failure.Task?
  }

  predicate Named(row: Row) {
    row.runId.Some? && row.runId.value.id != ""
  }

  // ----- reading the log -----

  function Rows(lines: seq<Line>): seq<Row> {
    if lines == [] then []
    else
      var n := |lines| - 1;
      Rows(lines[..n]) + if lines[n].Parsed? then [lines[n].row] else []
  }

  function Latest(rows: seq<Row>): map<RunId, Row> {
    if rows == [] then map[]
    else
      var n := |rows| - 1;
      if Named(rows[n]) then Latest(rows[..n])[rows[n].runId.value := rows[n]] else Latest(rows[..n])
  }

  function Completed(rows: seq<Row>): set<RunId> {
    var latest := Latest(rows);
    set id | id in latest && IsComplete(latest[id].failure)
  }

  /** The units of the schedule without a valid complete row, in schedule order. */
  function Pending(done: set<RunId>, units: seq<Unit>, runId: Unit -> RunId): seq<Unit> {
    if units == [] then []
    else
      var n := |units| - 1;
      Pending(done, units[..n], runId) + if runId(units[n]) !in done then [units[n]] else []
  }

  /** The rows are what the readable lines hold: at lists the positions of exactly those lines, in file order. */
  ghost predicate ReadAt(rows: seq<Row>, lines: seq<Line>, at: seq<nat>) {
    && |at| == |rows|
    && (forall k :: 0 <= k < |rows| ==> at[k] < |lines| && lines[at[k]] == Parsed(rows[k]))
    && (forall j, k :: 0 <= j < k < |rows| ==> at[j] < at[k])
    && forall i :: 0 <= i < |lines| ==> (i in at <==> lines[i].Parsed?)
  }

  lemma ReadLine(rows: seq<Row>, lines: seq<Line>, at: seq<nat>, line: Line)
    requires ReadAt(rows, lines, at)
    ensures line.Parsed? ==> ReadAt(rows + [line.row], lines + [line], at + [|lines|])
    ensures !line.Parsed? ==> ReadAt(rows, lines + [line], at)
  {
    assert forall i :: i in at ==> 0 <= i < |lines|;
    assert forall i :: i in at + [|lines|] <==> i in at || i == |lines|;
  }

  /** Blank and unreadable lines anywhere are skipped, and nothing else is: no row is lost, repeated or moved. */
  lemma {:induction false} RowsInOrder(lines: seq<Line>) returns (at: seq<nat>)
    ensures ReadAt(Rows(lines), lines, at)
  {
    if lines == [] {
      at := [];
    } else {
      var n := |lines| - 1;
      var before := RowsInOrder(lines[..n]);
      ReadLine(Rows(lines[..n]), lines[..n], before, lines[n]);
      assert lines[..n] + [lines[n]] == lines;
      at := if lines[n].Parsed? then before + [n] else before;
    }
  }

  /** load_rows: the rows and, as a witness, the lines they were read from. */
  method LoadRows(lines: seq<Line>) returns (rows: seq<Row>, ghost at: seq<nat>)
    ensures rows == Rows(lines)
    ensures ReadAt(rows, lines, at)
  {
    rows, at := [], [];
    for i := 0 to |lines|
      invariant rows == Rows(lines[..i])
      invariant ReadAt(rows, lines[..i], at)
    {
      assert lines[..i + 1][..i] == lines[..i];
      assert lines[..i + 1] == lines[..i] + [lines[i]];
      ReadLine(rows, lines[..i], at, lines[i]);
      if lines[i].Parsed? {
        rows := rows + [lines[i].row];
        at := at + [i];
      }
    }
    assert lines[..|lines|] == lines;
  }

  method LatestByRunId(rows: seq<Row>) returns (latest: map<RunId, Row>)
    ensures latest == Latest(rows)
  {
    latest := map[];
    for i := 0 to |rows|
      invariant latest == Latest(rows[..i])
    {
      assert rows[..i + 1][..i] == rows[..i];
      if Named(rows[i]) {
        latest := latest[rows[i].runId.value := rows[i]];
      }
    }
    assert rows[..|rows|] == rows;
  }

  /** Row i is the last one that carries this id. */
  ghost predicate LastFor(rows: seq<Row>, id: RunId, i: nat)
    requires i < |rows|
  {
    rows[i].runId == Some(id) && forall j :: i < j < |rows| ==> rows[j].runId != Some(id)
  }

  lemma {:induction false} LatestRow(rows: seq<Row>, id: RunId) returns (i: nat)
    requires id.id != ""
    ensures id in Latest(rows) ==> i < |rows| && LastFor(rows, id, i) && rows[i] == Latest(rows)[id]
    ensures id !in Latest(rows) ==> forall j :: 0 <= j < |rows| ==> rows[j].runId != Some(id)
  {
    i := 0;
    if rows != [] {
      var n := |rows| - 1;
      var h := rows[..n];
      i := LatestRow(h, id);
      assert forall j :: 0 <= j < n ==> h[j] == rows[j];
      if rows[n].runId == Some(id) {
        i := n;
      }
    }
  }

  /** Later row wins: an id is complete exactly when the last row that carries it is. */
  lemma LatestIsLast(rows: seq<Row>, id: RunId)
    requires id.id != ""
    ensures id in Latest(rows) <==> exists i :: 0 <= i < |rows| && rows[i].runId == Some(id)
    ensures id in Latest(rows) ==> exists i :: 0 <= i < |rows| && LastFor(rows, id, i) && rows[i] == Latest(rows)[id]
    ensures id in Completed(rows) <==>
            exists i :: 0 <= i < |rows| && LastFor(rows, id, i) && (rows[i].failure.Ok? || rows[i].failure.Task?)
  {
    var i := LatestRow(rows, id);
    forall j | 0 <= j < |rows| && LastFor(rows, id, j)
      ensures id in Latest(rows) && j == i
    {
    }
  }

  /** A row with an empty run id counts for nothing. */
  lemma {:induction false} EmptyIdIsIgnored(rows: seq<Row>)
    ensures RunId("") !in Latest(rows) && RunId("") !in Completed(rows)
  {
    if rows != [] {
      EmptyIdIsIgnored(rows[..|rows| - 1]);
    }
  }

  // ----- pending units -----

  /** t keeps the order of s: it lists the elements of s at increasing positions. */
  ghost predicate Subsequence(t: seq<Unit>, s: seq<Unit>, at: seq<nat>) {
    && |at| == |t|
    && (forall k :: 0 <= k < |t| ==> at[k] < |s| && t[k] == s[at[k]])
    && forall j, k :: 0 <= j < k < |t| ==> at[j] < at[k]
  }

  /** at lists exactly the positions of the units that are not done. */
  ghost predicate Undone(done: set<RunId>, s: seq<Unit>, runId: Unit -> RunId, at: seq<nat>) {
    forall i :: 0 <= i < |s| ==> (i in at <==> runId(s[i]) !in done)
  }

  lemma SubsequenceGrows(t: seq<Unit>, s: seq<Unit>, at: seq<nat>, u: Unit)
    requires Subsequence(t, s, at)
    ensures Subsequence(t, s + [u], at)
    ensures Subsequence(t + [u], s + [u], at + [|s|])
  {
  }

  lemma UndoneGrows(done: set<RunId>, t: seq<Unit>, s: seq<Unit>, runId: Unit -> RunId, at: seq<nat>, u: Unit)
    requires Undone(done, s, runId, at) && Subsequence(t, s, at)
    ensures Undone(done, s + [u], runId, if runId(u) !in done then at + [|s|] else at)
  {
    assert forall i :: i in at ==> 0 <= i < |s|;
    assert forall i :: i in at + [|s|] <==> i in at || i == |s|;
  }

  /** Pending order is a subsequence of schedule order that takes exactly the positions that are not done. */
  lemma {:induction false} PendingInOrder(done: set<RunId>, units: seq<Unit>, runId: Unit -> RunId)
    returns (at: seq<nat>)
    ensures Subsequence(Pending(done, units, runId), units, at)
    ensures Undone(done, units, runId, at)
  {
    if units == [] {
      at := [];
    } else {
      var h, u := units[..|units| - 1], units[|units| - 1];
      at := PendingInOrder(done, h, runId);
      SubsequenceGrows(Pending(done, h, runId), h, at, u);
      UndoneGrows(done, Pending(done, h, runId), h, runId, at, u);
      assert h + [u] == units;
      at := if runId(u) !in done then at + [|h|] else at;
    }
  }

  /** The units with a complete row, in schedule order. */
  function Finished(done: set<RunId>, units: seq<Unit>, runId: Unit -> RunId): seq<Unit> {
    if units == [] then []
    else
      var n := |units| - 1;
      Finished(done, units[..n], runId) + if runId(units[n]) in done then [units[n]] else []
  }

  /** Pending and completed units partition the schedule, repetitions included. */
  lemma {:induction false} PendingPartitions(done: set<RunId>, units: seq<Unit>, runId: Unit -> RunId)
    ensures multiset(Pending(done, units, runId)) + multiset(Finished(done, units, runId)) == multiset(units)
    ensures forall u :: u in Pending(done, units, runId) <==> u in units && runId(u) !in done
    ensures forall u :: u in Finished(done, units, runId) <==> u in units && runId(u) in done
  {
    if units != [] {
      var n := |units| - 1;
      PendingPartitions(done, units[..n], runId);
      assert units == units[..n] + [units[n]];
    }
  }

  // ----- what a resume executes, read off the file -----

  /** Line i is the last readable one that carries this id. */
  ghost predicate LastLine(lines: seq<Line>, id: RunId, i: nat)
    requires i < |lines|
  {
    && lines[i].Parsed? && lines[i].row.runId == Some(id)
    && forall j :: i < j < |lines| ==> !(lines[j].Parsed? && lines[j].row.runId == Some(id))
  }

  lemma {:induction false} LatestLine(lines: seq<Line>, id: RunId) returns (i: nat)
    requires id.id != ""
    ensures var latest := Latest(Rows(lines));
      && (id in latest ==> i < |lines| && LastLine(lines, id, i) && lines[i].row == latest[id])
      && (id !in latest ==> forall j :: 0 <= j < |lines| ==> !(lines[j].Parsed? && lines[j].row.runId == Some(id)))
  {
    i := 0;
    if lines != [] {
      var n := |lines| - 1;
      i := LatestLine(lines[..n], id);
      assert forall j :: 0 <= j < n ==> lines[..n][j] == lines[j];
      var before := Rows(lines[..n]);
      if !lines[n].Parsed? {
        assert Rows(lines) == before;
      } else {
        assert Rows(lines) == before + [lines[n].row];
        assert (before + [lines[n].row])[..|before|] == before;
        if lines[n].row.runId == Some(id) {
          i := n;
        }
      }
    }
  }

  /** A resume executes a unit unless the last line that carries its id ended well or failed at its task. */
  lemma ResumeExecutes(lines: seq<Line>, units: seq<Unit>, runId: Unit -> RunId, u: Unit)
    requires u in units && runId(u).id != ""
    ensures u in Pending(Completed(Rows(lines)), units, runId) <==>
            forall i :: 0 <= i < |lines| && LastLine(lines, runId(u), i) ==>
              lines[i].row.failure == UsageLimit || lines[i].row.failure == OtherFailure
  {
    PendingPartitions(Completed(Rows(lines)), units, runId);
    var i := LatestLine(lines, runId(u));
    forall j | 0 <= j < |lines| && LastLine(lines, runId(u), j)
      ensures runId(u) in Latest(Rows(lines)) && j == i
    {
    }
  }
}
